/** The hash-chained audit log of the community-safety engine. */
module SafetyAudit {
  import opened Wrappers

  const AUDIT_ENTRY_SCHEMA := "lumina.community-safety.audit-entry.v1"

  datatype Provenance = Provenance(
    sourceId: string, correlationId: string, observedAt: string, authenticationMethod: string)

  /** What `_provenance_complete` demands of a provenance. */
  predicate Complete(p: Provenance) {
    p.sourceId != "" && p.correlationId != "" && p.observedAt != "" && p.authenticationMethod != ""
  }

  predicate Provenanced(p: Provenance) {
    |p.sourceId| > 0 && |p.correlationId| > 0 && |p.observedAt| > 0 && |p.authenticationMethod| > 0
  }

  datatype EntryType = IncidentDecision | AppealDecision

  datatype IncidentBody = IncidentBody(
    incidentId: string, roomId: string, tenantId: string, reporterId: string, subjectId: string, category: string,
    provenance: Provenance)

  datatype AppealBody = AppealBody(
    appealId: string, incidentId: string, incidentSha: string, tenantId: string, userId: string, provenance: Provenance)

  datatype AuditBody = AuditBody(
    schema: string, sequence: int, entryType: EntryType, recordId: string, actorId: string, occurredAt: string,
    recordSha: string, previousSha: Option<string>, provenance: Provenance)

  /** Everything the engine hashes. */
  datatype Hashed =
    | OfEntry(entry: AuditBody) | OfIncident(incident: IncidentBody) | OfAppeal(appeal: AppealBody)
    | OfDecision(decision: IncidentBody, auditSha: string)

  datatype Entry = Entry(body: AuditBody, sha: string)

  ghost predicate Injective(sha: Hashed -> string) { forall a, b :: sha(a) == sha(b) ==> a == b }

  /** What the validator demands of the entry at `i`. */
  predicate EntryAccepted(sha: Hashed -> string, log: seq<Entry>, i: int)
    requires 0 <= i < |log|
  {
    && log[i].body.schema == AUDIT_ENTRY_SCHEMA && log[i].body.sequence == i + 1
    && log[i].body.previousSha == (if i == 0 then None else Some(log[i - 1].sha))
    && log[i].sha == sha(OfEntry(log[i].body)) && Complete(log[i].body.provenance)
  }

  ghost predicate Accepted(sha: Hashed -> string, log: seq<Entry>) {
    forall i :: 0 <= i < |log| ==> EntryAccepted(sha, log, i)
  }

  /** `validate_audit_log`. */
  method ValidateAuditLog(sha: Hashed -> string, log: seq<Entry>) returns (ok: bool)
    ensures ok <==> Accepted(sha, log)
  {
    var previous: Option<string> := None;
    for i := 0 to |log|
      invariant previous == if i == 0 then None else Some(log[i - 1].sha)
      invariant forall j :: 0 <= j < i ==> EntryAccepted(sha, log, j)
    {
      var item := log[i];
      if item.body.schema != AUDIT_ENTRY_SCHEMA {
        assert !EntryAccepted(sha, log, i);
        return false;
      }
      if item.body.sequence != i + 1 || item.body.previousSha != previous {
        assert !EntryAccepted(sha, log, i);
        return false;
      }
      if item.sha != sha(OfEntry(item.body)) || !Complete(item.body.provenance) {
        assert !EntryAccepted(sha, log, i);
        return false;
      }
      previous := Some(item.sha);
    }
    return true;
  }

  /** What acceptance means, entry by entry: the empty log is accepted, and a longer one exactly when its prefix is and
      its last entry names the schema, its position and its predecessor's hash, carries its own hash and says in full
      where it comes from. */
  lemma AcceptedIff(sha: Hashed -> string, log: seq<Entry>, e: Entry)
    ensures Accepted(sha, [])
    ensures Accepted(sha, log + [e]) <==>
            && Accepted(sha, log)
            && e.body.schema == "lumina.community-safety.audit-entry.v1" && e.body.sequence == |log| + 1
            && (log == [] ==> e.body.previousSha == None)
            && (log != [] ==> e.body.previousSha == Some(log[|log| - 1].sha))
            && e.sha == sha(OfEntry(e.body)) && Provenanced(e.body.provenance)
  {
    var more := log + [e];
    forall i | 0 <= i < |log|
      ensures EntryAccepted(sha, more, i) <==> EntryAccepted(sha, log, i)
    {
      assert more[i] == log[i] && (i > 0 ==> more[i - 1] == log[i - 1]);
    }
    assert more[|log|] == e && (log != [] ==> more[|log| - 1] == log[|log| - 1]);
    assert Accepted(sha, more) <==> Accepted(sha, log) && EntryAccepted(sha, more, |log|) by {
      hide EntryAccepted;
    }
  }

  /** With an injective hash, two accepted logs that agree on one entry's hash are identical up to that entry. */
  lemma {:induction false} HashPinsPrefix(sha: Hashed -> string, a: seq<Entry>, b: seq<Entry>, i: int, j: int)
    requires Injective(sha) && Accepted(sha, a) && Accepted(sha, b)
    requires 0 <= i < |a| && 0 <= j < |b| && a[i].sha == b[j].sha
    ensures i == j && a[..i + 1] == b[..j + 1]
    decreases i
  {
    assert EntryAccepted(sha, a, i) && EntryAccepted(sha, b, j);
    assert OfEntry(a[i].body) == OfEntry(b[j].body);
    if i > 0 {
      HashPinsPrefix(sha, a, b, i - 1, j - 1);
      assert a[..i + 1] == a[..i] + [a[i]] && b[..j + 1] == b[..j] + [b[j]];
    }
  }

  /** So two non-empty accepted logs with the same last hash are the same log. */
  lemma LastHashPinsLog(sha: Hashed -> string, a: seq<Entry>, b: seq<Entry>)
    requires Injective(sha) && Accepted(sha, a) && Accepted(sha, b) && a != [] && b != []
    requires a[|a| - 1].sha == b[|b| - 1].sha
    ensures a == b
  {
    HashPinsPrefix(sha, a, b, |a| - 1, |b| - 1);
    assert a[..|a|] == a && b[..|b|] == b;
  }

  /** Without the last hash a log that was cut short is accepted all the same. */
  lemma PrefixIsAccepted(sha: Hashed -> string, log: seq<Entry>, n: nat)
    requires Accepted(sha, log) && n <= |log|
    ensures Accepted(sha, log[..n])
  {
    forall i | 0 <= i < n
      ensures EntryAccepted(sha, log[..n], i)
    {
      assert EntryAccepted(sha, log, i);
    }
  }

  // ------------------------------------------------------------- the engine

  datatype Incident = Incident(body: IncidentBody, auditSha: string, decisionSha: string)

  /** `appeals` also remembers which incident was appealed; the source keeps the ids. */
  datatype State = State(incidents: map<string, Incident>, appeals: map<string, AppealBody>, audit: seq<Entry>)

  const Initial := State(map[], map[], [])

  function NewEntry(sha: Hashed -> string, log: seq<Entry>, kind: EntryType, recordId: string, actorId: string,
                    at: string, recordSha: string, provenance: Provenance): Entry
  {
    var body := AuditBody(AUDIT_ENTRY_SCHEMA, |log| + 1, kind, recordId, actorId, at, recordSha,
                          if log == [] then None else Some(log[|log| - 1].sha), provenance);
    Entry(body, sha(OfEntry(body)))
  }

  /** What the checks that are not modelled say of a call: for each group the code of the first that fails, if any. The
      groups in order: the identity token; the fields, the schema and the first ids; the other ids, times, categories
      and evidence; past the completeness of the provenance, its time and the bindings to token and role decision; room
      and presence; the token again, which is then consumed. */
  datatype Checks = Checks(
    token: Option<string>, form: Option<string>, details: Option<string>, bindings: Option<string>,
    presence: Option<string>, consumption: Option<string>)

  datatype Failure =
    | Rejected(code: string)
    | IncidentReplayed | ProvenanceIncomplete | AppealReplayed | IncidentNotFound | SubjectMismatch
    | ScopeMismatch | DecisionBindingMismatch

  function Assess(s: State, sha: Hashed -> string, b: IncidentBody, at: string, checks: Checks)
    : (State, Result<Incident, Failure>)
  {
    if checks.token.Some? then (s, Failure(Rejected(checks.token.value)))
    else if checks.form.Some? then (s, Failure(Rejected(checks.form.value)))
    else if b.incidentId in s.incidents then (s, Failure(IncidentReplayed))
    else if checks.details.Some? then (s, Failure(Rejected(checks.details.value)))
    else if !Complete(b.provenance) then (s, Failure(ProvenanceIncomplete))
    else if checks.bindings.Some? then (s, Failure(Rejected(checks.bindings.value)))
    else if checks.presence.Some? then (s, Failure(Rejected(checks.presence.value)))
    else if checks.consumption.Some? then (s, Failure(Rejected(checks.consumption.value)))
    else
      var entry := NewEntry(sha, s.audit, IncidentDecision, b.incidentId, b.reporterId, at, sha(OfIncident(b)),
                            b.provenance);
      var incident := Incident(b, entry.sha, sha(OfDecision(b, entry.sha)));
      (s.(audit := s.audit + [entry], incidents := s.incidents[b.incidentId := incident]), Success(incident))
  }

  function Appeal(s: State, sha: Hashed -> string, b: AppealBody, roomId: string, at: string, checks: Checks)
    : (State, Result<AppealBody, Failure>)
  {
    if checks.token.Some? then (s, Failure(Rejected(checks.token.value)))
    else if checks.form.Some? then (s, Failure(Rejected(checks.form.value)))
    else if b.appealId in s.appeals then (s, Failure(AppealReplayed))
    else if b.incidentId !in s.incidents then (s, Failure(IncidentNotFound))
    else if checks.details.Some? then (s, Failure(Rejected(checks.details.value)))
    else if !Complete(b.provenance) then (s, Failure(ProvenanceIncomplete))
    else if checks.bindings.Some? then (s, Failure(Rejected(checks.bindings.value)))
    else
      var incident := s.incidents[b.incidentId];
      if b.userId != incident.body.subjectId then (s, Failure(SubjectMismatch))
      else if roomId != incident.body.roomId || b.tenantId != incident.body.tenantId then (s, Failure(ScopeMismatch))
      else if b.incidentSha != incident.decisionSha then (s, Failure(DecisionBindingMismatch))
      else if checks.presence.Some? then (s, Failure(Rejected(checks.presence.value)))
      else if checks.consumption.Some? then (s, Failure(Rejected(checks.consumption.value)))
      else
        var entry := NewEntry(sha, s.audit, AppealDecision, b.appealId, b.userId, at, sha(OfAppeal(b)), b.provenance);
        (s.(audit := s.audit + [entry], appeals := s.appeals[b.appealId := b]), Success(b))
  }

  datatype Call =
    | AssessCall(incident: IncidentBody, at: string, checks: Checks)
    | AppealCall(appeal: AppealBody, roomId: string, at: string, checks: Checks)

  function Step(s: State, sha: Hashed -> string, call: Call): State {
    match call
    case AssessCall(b, at, checks) => Assess(s, sha, b, at, checks).0
    case AppealCall(b, room, at, checks) => Appeal(s, sha, b, room, at, checks).0
  }

  function Run(s: State, sha: Hashed -> string, calls: seq<Call>): State
    decreases |calls|
  {
    if calls == [] then s else Run(Step(s, sha, calls[0]), sha, calls[1..])
  }

  /** The entry that records this incident. */
  predicate Records(sha: Hashed -> string, e: Entry, incident: Incident) {
    && e.body.entryType.IncidentDecision? && e.body.recordId == incident.body.incidentId
    && e.body.recordSha == sha(OfIncident(incident.body)) && e.sha == incident.auditSha
    && incident.decisionSha == sha(OfDecision(incident.body, e.sha))
  }

  predicate RecordsAppeal(sha: Hashed -> string, e: Entry, appeal: AppealBody) {
    e.body.entryType.AppealDecision? && e.body.recordId == appeal.appealId && e.body.recordSha == sha(OfAppeal(appeal))
  }

  /** One of the first `n` entries records the incident. */
  ghost predicate RecordedWithin(sha: Hashed -> string, log: seq<Entry>, incident: Incident, n: int) {
    exists j :: 0 <= j < n && j < |log| && Records(sha, log[j], incident)
  }

  ghost predicate AppealRecorded(sha: Hashed -> string, log: seq<Entry>, appeal: AppealBody) {
    exists j :: 0 <= j < |log| && RecordsAppeal(sha, log[j], appeal)
  }

  /** The entry at `i` records one of the incidents, or an appeal whose incident is recorded before it. */
  ghost predicate Placed(s: State, sha: Hashed -> string, i: int)
    requires 0 <= i < |s.audit|
  {
    var id := s.audit[i].body.recordId;
    if s.audit[i].body.entryType.IncidentDecision? then
      id in s.incidents && Records(sha, s.audit[i], s.incidents[id])
    else
      && id in s.appeals && RecordsAppeal(sha, s.audit[i], s.appeals[id])
      && s.appeals[id].incidentId in s.incidents
      && var incident := s.incidents[s.appeals[id].incidentId];
         && incident.body.subjectId == s.appeals[id].userId && incident.decisionSha == s.appeals[id].incidentSha
         && RecordedWithin(sha, s.audit, incident, i)
  }

  ghost predicate AllPlaced(s: State, sha: Hashed -> string) {
    forall i :: 0 <= i < |s.audit| ==> Placed(s, sha, i)
  }

  ghost predicate IncidentsRecorded(s: State, sha: Hashed -> string) {
    forall id :: id in s.incidents ==>
      s.incidents[id].body.incidentId == id && RecordedWithin(sha, s.audit, s.incidents[id], |s.audit|)
  }

  ghost predicate AppealsRecorded(s: State, sha: Hashed -> string) {
    forall id :: id in s.appeals ==> s.appeals[id].appealId == id && AppealRecorded(sha, s.audit, s.appeals[id])
  }

  ghost predicate Inv(s: State, sha: Hashed -> string) {
    && Accepted(sha, s.audit) && |s.audit| == |s.incidents| + |s.appeals|
    && AllPlaced(s, sha) && IncidentsRecorded(s, sha) && AppealsRecorded(s, sha)
  }

  lemma AppendKeepsChain(sha: Hashed -> string, log: seq<Entry>, e: Entry)
    requires Accepted(sha, log) && EntryAccepted(sha, log + [e], |log|)
    ensures Accepted(sha, log + [e])
  {
    forall i | 0 <= i < |log + [e]|
      ensures EntryAccepted(sha, log + [e], i)
    {
      assert i < |log| ==> EntryAccepted(sha, log, i);
    }
  }

  lemma StillRecorded(sha: Hashed -> string, log: seq<Entry>, e: Entry, incident: Incident, n: int, m: int)
    requires RecordedWithin(sha, log, incident, n) && n <= m
    ensures RecordedWithin(sha, log + [e], incident, m)
  {
    var j :| 0 <= j < n && j < |log| && Records(sha, log[j], incident);
    assert (log + [e])[j] == log[j];
  }

  lemma StillAppealed(sha: Hashed -> string, log: seq<Entry>, e: Entry, appeal: AppealBody)
    requires AppealRecorded(sha, log, appeal)
    ensures AppealRecorded(sha, log + [e], appeal)
  {
    var j :| 0 <= j < |log| && RecordsAppeal(sha, log[j], appeal);
    assert (log + [e])[j] == log[j];
  }

  /** `n` adds the entry `e`, and with it at most new incidents and appeals that `e` records. */
  ghost predicate Extends(s: State, sha: Hashed -> string, n: State, e: Entry) {
    && n.audit == s.audit + [e]
    && (forall id :: id in s.incidents ==> id in n.incidents && n.incidents[id] == s.incidents[id])
    && (forall id :: id in s.appeals ==> id in n.appeals && n.appeals[id] == s.appeals[id])
    && (forall id :: id in n.incidents && id !in s.incidents ==>
          n.incidents[id].body.incidentId == id && Records(sha, e, n.incidents[id]))
    && (forall id :: id in n.appeals && id !in s.appeals ==>
          n.appeals[id].appealId == id && RecordsAppeal(sha, e, n.appeals[id]))
  }

  lemma OldStaysPlaced(s: State, sha: Hashed -> string, n: State, e: Entry, i: int)
    requires AllPlaced(s, sha) && Extends(s, sha, n, e) && 0 <= i < |s.audit|
    ensures Placed(n, sha, i)
  {
    hide Records, RecordsAppeal, RecordedWithin;
    assert Placed(s, sha, i) && n.audit[i] == s.audit[i];
    var id := s.audit[i].body.recordId;
    if s.audit[i].body.entryType.AppealDecision? {
      StillRecorded(sha, s.audit, e, s.incidents[s.appeals[id].incidentId], i, i);
    }
  }

  lemma ExtensionRecordsIncidents(s: State, sha: Hashed -> string, n: State, e: Entry)
    requires IncidentsRecorded(s, sha) && Extends(s, sha, n, e)
    ensures IncidentsRecorded(n, sha)
  {
    hide Records, RecordsAppeal;
    forall id | id in n.incidents
      ensures n.incidents[id].body.incidentId == id && RecordedWithin(sha, n.audit, n.incidents[id], |n.audit|)
    {
      if id in s.incidents {
        StillRecorded(sha, s.audit, e, s.incidents[id], |s.audit|, |n.audit|);
      } else {
        assert n.audit[|s.audit|] == e;
      }
    }
  }

  lemma ExtensionRecordsAppeals(s: State, sha: Hashed -> string, n: State, e: Entry)
    requires AppealsRecorded(s, sha) && Extends(s, sha, n, e)
    ensures AppealsRecorded(n, sha)
  {
    hide Records, RecordsAppeal;
    forall id | id in n.appeals
      ensures n.appeals[id].appealId == id && AppealRecorded(sha, n.audit, n.appeals[id])
    {
      if id in s.appeals {
        StillAppealed(sha, s.audit, e, s.appeals[id]);
      } else {
        assert n.audit[|s.audit|] == e;
      }
    }
  }

  lemma ExtensionPlaces(s: State, sha: Hashed -> string, n: State, e: Entry)
    requires AllPlaced(s, sha) && Extends(s, sha, n, e) && Placed(n, sha, |s.audit|)
    ensures AllPlaced(n, sha)
  {
    hide Records, RecordsAppeal, RecordedWithin, AppealRecorded;
    assert |n.audit| == |s.audit| + 1;
    forall i | 0 <= i < |s.audit|
      ensures Placed(n, sha, i)
    {
      hide AllPlaced, Placed;
      OldStaysPlaced(s, sha, n, e, i);
    }
    hide Extends, Placed;
  }

  lemma ExtensionKeeps(s: State, sha: Hashed -> string, n: State, e: Entry)
    requires Inv(s, sha) && Extends(s, sha, n, e) && Accepted(sha, n.audit)
    requires |n.audit| == |n.incidents| + |n.appeals| && Placed(n, sha, |s.audit|)
    ensures Inv(n, sha)
  {
    hide Accepted, AllPlaced, IncidentsRecorded, AppealsRecorded, Placed, Extends;
    ExtensionPlaces(s, sha, n, e);
    ExtensionRecordsIncidents(s, sha, n, e);
    ExtensionRecordsAppeals(s, sha, n, e);
  }

  /** A fresh entry with complete provenance is accepted at the end of an accepted log. */
  lemma NewEntryAccepted(sha: Hashed -> string, log: seq<Entry>, kind: EntryType, id: string, actor: string, at: string,
                         recordSha: string, p: Provenance)
    requires Accepted(sha, log) && Complete(p)
    ensures Accepted(sha, log + [NewEntry(sha, log, kind, id, actor, at, recordSha, p)])
  {
    AppendKeepsChain(sha, log, NewEntry(sha, log, kind, id, actor, at, recordSha, p));
  }

  /** What an assessment that passes adds. */
  lemma AssessAdds(s: State, sha: Hashed -> string, b: IncidentBody, at: string, checks: Checks) returns (e: Entry)
    requires Accepted(sha, s.audit) && Assess(s, sha, b, at, checks).1.Success?
    ensures var (n, r) := Assess(s, sha, b, at, checks);
            && n == State(s.incidents[b.incidentId := r.value], s.appeals, s.audit + [e])
            && b.incidentId !in s.incidents
            && Accepted(sha, s.audit + [e]) && Records(sha, e, r.value) && r.value.body == b
  {
    e := NewEntry(sha, s.audit, IncidentDecision, b.incidentId, b.reporterId, at, sha(OfIncident(b)), b.provenance);
    NewEntryAccepted(sha, s.audit, IncidentDecision, b.incidentId, b.reporterId, at, sha(OfIncident(b)), b.provenance);
    hide Accepted;
  }

  /** What an appeal that is entered adds. */
  lemma AppealAdds(s: State, sha: Hashed -> string, b: AppealBody, roomId: string, at: string, checks: Checks)
    returns (e: Entry)
    requires Accepted(sha, s.audit) && Appeal(s, sha, b, roomId, at, checks).1.Success?
    ensures Appeal(s, sha, b, roomId, at, checks).0 == State(s.incidents, s.appeals[b.appealId := b], s.audit + [e])
    ensures Accepted(sha, s.audit + [e]) && RecordsAppeal(sha, e, b) && b.appealId !in s.appeals
    ensures b.incidentId in s.incidents && s.incidents[b.incidentId].body.subjectId == b.userId
    ensures s.incidents[b.incidentId].decisionSha == b.incidentSha
  {
    e := NewEntry(sha, s.audit, AppealDecision, b.appealId, b.userId, at, sha(OfAppeal(b)), b.provenance);
    NewEntryAccepted(sha, s.audit, AppealDecision, b.appealId, b.userId, at, sha(OfAppeal(b)), b.provenance);
    hide Accepted;
  }

  lemma IncidentExtends(s: State, sha: Hashed -> string, incident: Incident, e: Entry)
    requires incident.body.incidentId !in s.incidents && Records(sha, e, incident)
    ensures var n := State(s.incidents[incident.body.incidentId := incident], s.appeals, s.audit + [e]);
            Extends(s, sha, n, e) && Placed(n, sha, |s.audit|)
  {
    var n := State(s.incidents[incident.body.incidentId := incident], s.appeals, s.audit + [e]);
    assert n.audit[|s.audit|] == e;
  }

  lemma AppealExtends(s: State, sha: Hashed -> string, b: AppealBody, e: Entry)
    requires b.appealId !in s.appeals && RecordsAppeal(sha, e, b)
    ensures Extends(s, sha, State(s.incidents, s.appeals[b.appealId := b], s.audit + [e]), e)
  {
  }

  lemma AppealPlaced(s: State, sha: Hashed -> string, b: AppealBody, e: Entry)
    requires b.appealId !in s.appeals && RecordsAppeal(sha, e, b) && b.incidentId in s.incidents
    requires s.incidents[b.incidentId].body.subjectId == b.userId
    requires s.incidents[b.incidentId].decisionSha == b.incidentSha
    requires RecordedWithin(sha, s.audit, s.incidents[b.incidentId], |s.audit|)
    ensures Placed(State(s.incidents, s.appeals[b.appealId := b], s.audit + [e]), sha, |s.audit|)
  {
    var n := State(s.incidents, s.appeals[b.appealId := b], s.audit + [e]);
    assert n.audit[|s.audit|] == e;
    hide RecordedWithin;
    StillRecorded(sha, s.audit, e, s.incidents[b.incidentId], |s.audit|, |s.audit|);
  }

  lemma AssessKeeps(s: State, sha: Hashed -> string, b: IncidentBody, at: string, checks: Checks)
    requires Inv(s, sha)
    ensures Inv(Assess(s, sha, b, at, checks).0, sha)
  {
    hide Accepted, AllPlaced, IncidentsRecorded, AppealsRecorded, Extends, Placed, Records;
    var (n, r) := Assess(s, sha, b, at, checks);
    if r.Success? {
      var e := AssessAdds(s, sha, b, at, checks);
      hide Assess;
      IncidentExtends(s, sha, r.value, e);
      ExtensionKeeps(s, sha, n, e);
    } else {
      assert n == s;
    }
  }

  lemma AppealKeeps(s: State, sha: Hashed -> string, b: AppealBody, roomId: string, at: string, checks: Checks)
    requires Inv(s, sha)
    ensures Inv(Appeal(s, sha, b, roomId, at, checks).0, sha)
  {
    hide Accepted, AllPlaced, AppealsRecorded, RecordedWithin, Extends, Placed, RecordsAppeal;
    var (n, r) := Appeal(s, sha, b, roomId, at, checks);
    if r.Success? {
      var e := AppealAdds(s, sha, b, roomId, at, checks);
      hide Appeal;
      AppealExtends(s, sha, b, e);
      AppealPlaced(s, sha, b, e);
      hide IncidentsRecorded;
      ExtensionKeeps(s, sha, n, e);
    } else {
      assert n == s;
    }
  }

  lemma StepKeeps(s: State, sha: Hashed -> string, call: Call)
    requires Inv(s, sha)
    ensures Inv(Step(s, sha, call), sha)
  {
    hide Inv, Assess, Appeal;
    match call
    case AssessCall(b, at, checks) => AssessKeeps(s, sha, b, at, checks);
    case AppealCall(b, room, at, checks) => AppealKeeps(s, sha, b, room, at, checks);
  }

  lemma {:induction false} RunKeeps(s: State, sha: Hashed -> string, calls: seq<Call>)
    requires Inv(s, sha)
    ensures Inv(Run(s, sha, calls), sha)
    decreases |calls|
  {
    hide Inv, Step;
    if calls != [] {
      StepKeeps(s, sha, calls[0]);
      RunKeeps(Step(s, sha, calls[0]), sha, calls[1..]);
    }
  }

  /** Whatever is assessed and appealed, the validator accepts the log, it has one entry for each incident and
      appeal, and each appeal's entry comes after that of the incident it names, of which its user is the subject. */
  lemma LogIsSound(sha: Hashed -> string, calls: seq<Call>)
    ensures var s := Run(Initial, sha, calls);
            && Accepted(sha, s.audit) && |s.audit| == |s.incidents| + |s.appeals|
            && (forall i :: 0 <= i < |s.audit| ==> Placed(s, sha, i))
            && (forall id :: id in s.incidents ==> RecordedWithin(sha, s.audit, s.incidents[id], |s.audit|))
            && (forall id :: id in s.appeals ==> AppealRecorded(sha, s.audit, s.appeals[id]))
  {
    assert Inv(Initial, sha);
    RunKeeps(Initial, sha, calls);
    hide Run, Accepted, Placed, RecordedWithin, AppealRecorded;
  }

  lemma SameDecision(sha: Hashed -> string, x: Incident, y: Incident, e: Entry, f: Entry)
    requires Injective(sha) && Records(sha, e, x) && Records(sha, f, y) && x.decisionSha == y.decisionSha
    ensures x == y && e.sha == f.sha
  {
    assert OfDecision(x.body, x.auditSha) == OfDecision(y.body, y.auditSha);
  }

  /** The two logs agree up to and including an entry that records the incident. */
  ghost predicate AgreeUpTo(sha: Hashed -> string, a: seq<Entry>, b: seq<Entry>, x: Incident) {
    exists i :: 0 <= i < |a| && i < |b| && a[..i + 1] == b[..i + 1] && Records(sha, a[i], x)
  }

  lemma RecordPinsLog(sha: Hashed -> string, a: seq<Entry>, b: seq<Entry>, x: Incident, y: Incident)
    requires Injective(sha) && Accepted(sha, a) && Accepted(sha, b) && x.decisionSha == y.decisionSha
    requires RecordedWithin(sha, a, x, |a|) && RecordedWithin(sha, b, y, |b|)
    ensures x == y && AgreeUpTo(sha, a, b, x)
  {
    hide Accepted, Injective, Records;
    var i :| 0 <= i < |a| && Records(sha, a[i], x);
    var j :| 0 <= j < |b| && Records(sha, b[j], y);
    SameDecision(sha, x, y, a[i], b[j]);
    HashPinsPrefix(sha, a, b, i, j);
  }

  /** The hash an appeal is bound to fixes the incident and the whole log up to its entry, across any two runs. */
  lemma DecisionPinsLog(sha: Hashed -> string, a: State, b: State, id: string, other: string)
    requires Injective(sha) && Inv(a, sha) && Inv(b, sha) && id in a.incidents && other in b.incidents
    requires a.incidents[id].decisionSha == b.incidents[other].decisionSha
    ensures id == other && a.incidents[id] == b.incidents[other]
    ensures AgreeUpTo(sha, a.audit, b.audit, a.incidents[id])
  {
    hide Accepted, AllPlaced, AppealsRecorded, RecordedWithin, AgreeUpTo, Injective;
    RecordPinsLog(sha, a.audit, b.audit, a.incidents[id], b.incidents[other]);
  }

  // ---------------------------------------------------------- who is entered

  predicate Passes(checks: Checks) {
    && checks.token == None && checks.form == None && checks.details == None && checks.bindings == None
    && checks.presence == None && checks.consumption == None
  }

  /** The first thing that stands against an assessment that fails. */
  function WhyNotAssessed(s: State, b: IncidentBody, checks: Checks): Failure {
    match (checks.token, checks.form, b.incidentId in s.incidents, checks.details)
    case (Some(code), _, _, _) => Rejected(code)
    case (None, Some(code), _, _) => Rejected(code)
    case (None, None, true, _) => IncidentReplayed
    case (None, None, false, Some(code)) => Rejected(code)
    case (None, None, false, None) => if Provenanced(b.provenance) then LastChecks(checks) else ProvenanceIncomplete
  }

  function LastChecks(checks: Checks): Failure {
    Rejected(match (checks.bindings, checks.presence, checks.consumption)
             case (Some(code), _, _) => code
             case (None, Some(code), _) => code
             case (None, None, Some(code)) => code
             case (None, None, None) => "")
  }

  /** The first thing that stands against an appeal that fails. */
  function WhyNotAppealed(s: State, b: AppealBody, roomId: string, checks: Checks): Failure {
    match (checks.token, checks.form)
    case (Some(code), _) => Rejected(code)
    case (None, Some(code)) => Rejected(code)
    case (None, None) =>
      if b.appealId in s.appeals then AppealReplayed
      else if b.incidentId !in s.incidents then IncidentNotFound
      else
        var incident := s.incidents[b.incidentId].body;
        match checks.details
        case Some(code) => Rejected(code)
        case None =>
          if !Provenanced(b.provenance) then ProvenanceIncomplete
          else if checks.bindings != None then LastChecks(checks)
          else if incident.subjectId != b.userId then SubjectMismatch
          else if incident.roomId != roomId || incident.tenantId != b.tenantId then ScopeMismatch
          else if s.incidents[b.incidentId].decisionSha != b.incidentSha then DecisionBindingMismatch
          else LastChecks(checks)
  }

  /** An incident is entered exactly when its id is new, its provenance is complete and every check passes. */
  lemma AssessedIff(s: State, sha: Hashed -> string, b: IncidentBody, at: string, checks: Checks)
    ensures var (n, r) := Assess(s, sha, b, at, checks);
            && (r.Success? <==> Passes(checks) && Provenanced(b.provenance) && b.incidentId !in s.incidents)
            && (r.Failure? ==> n == s && r.error == WhyNotAssessed(s, b, checks))
            && (r.Success? ==>
                  && n.incidents == s.incidents[b.incidentId := r.value] && n.appeals == s.appeals && r.value.body == b
                  && |n.audit| == |s.audit| + 1 && n.audit[..|s.audit|] == s.audit)
  {
  }

  /** The appeal is one its incident allows: by its subject, in its room and tenant, and bound to its decision. */
  predicate Appealable(s: State, b: AppealBody, roomId: string) {
    && b.incidentId in s.incidents
    && var incident := s.incidents[b.incidentId];
       && incident.body.subjectId == b.userId && incident.body.roomId == roomId && incident.body.tenantId == b.tenantId
       && incident.decisionSha == b.incidentSha
  }

  /** An appeal is entered exactly when its id is new, its incident allows it, its provenance is complete and
      every check passes. */
  lemma AppealedIff(s: State, sha: Hashed -> string, b: AppealBody, roomId: string, at: string, checks: Checks)
    ensures var (n, r) := Appeal(s, sha, b, roomId, at, checks);
            && (r.Success? <==>
                  && Passes(checks) && Provenanced(b.provenance) && b.appealId !in s.appeals
                  && Appealable(s, b, roomId))
            && (r.Failure? ==> n == s && r.error == WhyNotAppealed(s, b, roomId, checks))
            && (r.Success? ==>
                  && n.appeals == s.appeals[b.appealId := b] && n.incidents == s.incidents
                  && |n.audit| == |s.audit| + 1 && n.audit[..|s.audit|] == s.audit)
  {
  }

  lemma RunSnoc(s: State, sha: Hashed -> string, calls: seq<Call>, call: Call)
    ensures Run(s, sha, calls + [call]) == Step(Run(s, sha, calls), sha, call)
    decreases |calls|
  {
    hide Step;
    if calls == [] {
      assert ([] + [call])[1..] == [];
    } else {
      assert (calls + [call])[1..] == calls[1..] + [call];
      RunSnoc(Step(s, sha, calls[0]), sha, calls[1..], call);
    }
  }

  /** The call at `n` enters the appeal, which its incident allowed then. */
  ghost predicate EnteredAt(sha: Hashed -> string, calls: seq<Call>, n: int, b: AppealBody) {
    && 0 <= n < |calls| && calls[n].AppealCall? && calls[n].appeal == b && Passes(calls[n].checks)
    && Appealable(Run(Initial, sha, calls[..n]), b, calls[n].roomId)
  }

  /** In every run each appeal was entered by a call with all checks passed, in the room and tenant of an incident that
      was already decided. */
  lemma {:induction false} AppealsWereAllowed(sha: Hashed -> string, calls: seq<Call>, id: string)
    requires id in Run(Initial, sha, calls).appeals
    ensures exists n :: EnteredAt(sha, calls, n, Run(Initial, sha, calls).appeals[id])
    decreases |calls|
  {
    if calls != [] {
      var last := |calls| - 1;
      var before, call := Run(Initial, sha, calls[..last]), calls[last];
      assert calls == calls[..last] + [call];
      RunSnoc(Initial, sha, calls[..last], call);
      hide Run, Assess, Appeal, Appealable, Passes;
      match call {
        case AssessCall(b, at, checks) => AssessedIff(before, sha, b, at, checks);
        case AppealCall(b, room, at, checks) => AppealedIff(before, sha, b, room, at, checks);
      }
      if id in before.appeals && before.appeals[id] == Step(before, sha, call).appeals[id] {
        AppealsWereAllowed(sha, calls[..last], id);
        var n :| EnteredAt(sha, calls[..last], n, before.appeals[id]);
        assert calls[..last][..n] == calls[..n];
        assert EnteredAt(sha, calls, n, before.appeals[id]);
      } else {
        assert EnteredAt(sha, calls, last, Step(before, sha, call).appeals[id]);
      }
    }
  }

  class CommunitySafetyEngine {
    const sha: Hashed -> string
    var incidents: map<string, Incident>
    var appeals: map<string, AppealBody>
    var audit: seq<Entry>

    function View(): State
      reads this
    {
      State(incidents, appeals, audit)
    }

    constructor (sha: Hashed -> string)
      ensures View() == Initial && this.sha == sha
    {
      this.sha := sha;
      incidents, appeals, audit := map[], map[], [];
    }

    /** `_append_audit`. */
    method AppendAudit(kind: EntryType, recordId: string, actorId: string, at: string, recordSha: string, p: Provenance)
      returns (entry: Entry)
      modifies this`audit
      ensures entry == NewEntry(sha, old(audit), kind, recordId, actorId, at, recordSha, p)
      ensures audit == old(audit) + [entry]
    {
      var previous := if audit == [] then None else Some(audit[|audit| - 1].sha);
      var body := AuditBody(AUDIT_ENTRY_SCHEMA, |audit| + 1, kind, recordId, actorId, at, recordSha, previous, p);
      entry := Entry(body, sha(OfEntry(body)));
      audit := audit + [entry];
    }

    method AssessIncident(b: IncidentBody, at: string, checks: Checks) returns (r: Result<Incident, Failure>)
      modifies this
      ensures (View(), r) == Assess(old(View()), sha, b, at, checks)
    {
      if checks.token.Some? {
        return Failure(Rejected(checks.token.value));
      }
      if checks.form.Some? {
        return Failure(Rejected(checks.form.value));
      }
      if b.incidentId in incidents {
        return Failure(IncidentReplayed);
      }
      if checks.details.Some? {
        return Failure(Rejected(checks.details.value));
      }
      if !Complete(b.provenance) {
        return Failure(ProvenanceIncomplete);
      }
      if checks.bindings.Some? {
        return Failure(Rejected(checks.bindings.value));
      }
      if checks.presence.Some? {
        return Failure(Rejected(checks.presence.value));
      }
      if checks.consumption.Some? {
        return Failure(Rejected(checks.consumption.value));
      }
      var entry := AppendAudit(IncidentDecision, b.incidentId, b.reporterId, at, sha(OfIncident(b)), b.provenance);
      var incident := Incident(b, entry.sha, sha(OfDecision(b, entry.sha)));
      incidents := incidents[b.incidentId := incident];
      return Success(incident);
    }

    method AppealIncident(b: AppealBody, roomId: string, at: string, checks: Checks)
      returns (r: Result<AppealBody, Failure>)
      modifies this
      ensures (View(), r) == Appeal(old(View()), sha, b, roomId, at, checks)
    {
      if checks.token.Some? {
        return Failure(Rejected(checks.token.value));
      }
      if checks.form.Some? {
        return Failure(Rejected(checks.form.value));
      }
      if b.appealId in appeals {
        return Failure(AppealReplayed);
      }
      if b.incidentId !in incidents {
        return Failure(IncidentNotFound);
      }
      if checks.details.Some? {
        return Failure(Rejected(checks.details.value));
      }
      if !Complete(b.provenance) {
        return Failure(ProvenanceIncomplete);
      }
      if checks.bindings.Some? {
        return Failure(Rejected(checks.bindings.value));
      }
      var incident := incidents[b.incidentId];
      if b.userId != incident.body.subjectId {
        return Failure(SubjectMismatch);
      }
      if roomId != incident.body.roomId || b.tenantId != incident.body.tenantId {
        return Failure(ScopeMismatch);
      }
      if b.incidentSha != incident.decisionSha {
        return Failure(DecisionBindingMismatch);
      }
      if checks.presence.Some? {
        return Failure(Rejected(checks.presence.value));
      }
      if checks.consumption.Some? {
        return Failure(Rejected(checks.consumption.value));
      }
      var entry := AppendAudit(AppealDecision, b.appealId, b.userId, at, sha(OfAppeal(b)), b.provenance);
      appeals := appeals[b.appealId := b];
      return Success(b);
    }
  }
}
