/** The consent-bound event store of the beta-telemetry service. */
module TelemetryPrivacy {
  const RETENTION_SECONDS := 2592000.0
  const CLOCK_SKEW_SECONDS := 2.0

  datatype Scope = Scope(tenantId: string, userId: string)

  /** An event as it is stored; `key` is its occurrence time in ISO text and `token` the hash of its id. */
  datatype Event = Event(id: string, scope: Scope, occurred: real, key: string, token: string, body: string)

  function ExpiresAt(e: Event): real { e.occurred + RETENTION_SECONDS }

  /** `optedOut`, `deleted` and `purged` count what the calls reported as removed. */
  datatype State = State(
    consent: map<Scope, bool>, events: seq<Event>, ids: set<string>, optedOut: nat, deleted: nat, purged: nat)

  const Initial := State(map[], [], {}, 0, 0, 0)

  function Filter(es: seq<Event>, keep: Event -> bool): (kept: seq<Event>)
    ensures |kept| <= |es|
    ensures forall e :: e in kept <==> e in es && keep(e)
  {
    if es == [] then []
    else
      var rest := Filter(es[..|es| - 1], keep);
      assert es == es[..|es| - 1] + [es[|es| - 1]];
      if keep(es[|es| - 1]) then rest + [es[|es| - 1]] else rest
  }

  function Of(es: seq<Event>, scope: Scope): seq<Event> { Filter(es, (e: Event) => e.scope == scope) }

  function Without(es: seq<Event>, scope: Scope): seq<Event> { Filter(es, (e: Event) => e.scope != scope) }

  function Unexpired(es: seq<Event>, now: real): seq<Event> { Filter(es, (e: Event) => ExpiresAt(e) > now) }

  /** The first of the checks that are not modelled to fail: fields, schema and event id; the other ids; the event
      type; the format of its time; provenance and metrics. */
  datatype Form = FieldsBroken | IdsBroken | TypeUnknown | TimeBroken | ContentBroken | WellFormed

  datatype Verdict = Stored | Replayed | ConsentRequired | FromFuture | Expired | Malformed(form: Form)

  function Judge(s: State, e: Event, now: real, form: Form): Verdict {
    if form.FieldsBroken? then Malformed(form)
    else if e.id in s.ids then Replayed
    else if form.IdsBroken? then Malformed(form)
    else if !(e.scope in s.consent && s.consent[e.scope]) then ConsentRequired
    else if form.TypeUnknown? || form.TimeBroken? then Malformed(form)
    else if e.occurred > now + CLOCK_SKEW_SECONDS then FromFuture
    else if now - e.occurred > RETENTION_SECONDS then Expired
    else if form.ContentBroken? then Malformed(form)
    else Stored
  }

  function SetConsent(s: State, scope: Scope, enabled: bool): State {
    var asked := s.(consent := s.consent[scope := enabled]);
    if enabled then asked
    else asked.(events := Without(s.events, scope), optedOut := s.optedOut + |s.events| - |Without(s.events, scope)|)
  }

  function Ingest(s: State, e: Event, now: real, form: Form): State {
    if Judge(s, e, now, form) == Stored then s.(ids := s.ids + {e.id}, events := s.events + [e]) else s
  }

  function Delete(s: State, scope: Scope): State {
    s.(events := Without(s.events, scope), deleted := s.deleted + |s.events| - |Without(s.events, scope)|)
  }

  function PurgeExpired(s: State, now: real): State {
    s.(events := Unexpired(s.events, now), purged := s.purged + |s.events| - |Unexpired(s.events, now)|)
  }

  datatype Call =
    | ConsentCall(scope: Scope, enabled: bool)
    | IngestCall(event: Event, now: real, form: Form)
    | DeleteCall(scope: Scope)
    | PurgeCall(now: real)

  function Step(s: State, call: Call): State {
    match call
    case ConsentCall(scope, enabled) => SetConsent(s, scope, enabled)
    case IngestCall(e, now, form) => Ingest(s, e, now, form)
    case DeleteCall(scope) => Delete(s, scope)
    case PurgeCall(now) => PurgeExpired(s, now)
  }

  function Run(calls: seq<Call>): State {
    if calls == [] then Initial else Step(Run(calls[..|calls| - 1]), calls[|calls| - 1])
  }

  // ------------------------------------------- what a run says, read off its calls

  /** The last answer the scope gave. */
  function LastConsent(calls: seq<Call>, scope: Scope): bool {
    if calls == [] then false
    else
      var call := calls[|calls| - 1];
      if call.ConsentCall? && call.scope == scope then call.enabled else LastConsent(calls[..|calls| - 1], scope)
  }

  /** The ids stored so far, whatever became of their events. */
  function StoredIds(calls: seq<Call>): seq<string>
    decreases |calls|, 0
  {
    if calls == [] then []
    else
      var before, call := calls[..|calls| - 1], calls[|calls| - 1];
      StoredIds(before)
      + if call.IngestCall? && Storable(before, call.event, call.now, call.form) then [call.event.id] else []
  }

  /** After these calls the event may be stored: its id was never stored, its scope's last answer is consent, and it
      is well formed and within its time. */
  predicate Storable(calls: seq<Call>, e: Event, now: real, form: Form)
    decreases |calls|, 1
  {
    && e.id !in StoredIds(calls) && LastConsent(calls, e.scope) && form.WellFormed?
    && e.occurred <= now + CLOCK_SKEW_SECONDS && now <= ExpiresAt(e)
  }

  predicate Distinct(ids: seq<string>) { forall i, j :: 0 <= i < j < |ids| ==> ids[i] != ids[j] }

  lemma {:induction false} ConsentIsLast(calls: seq<Call>, scope: Scope)
    ensures var s := Run(calls); (scope in s.consent && s.consent[scope]) == LastConsent(calls, scope)
    decreases |calls|
  {
    if calls != [] {
      ConsentIsLast(calls[..|calls| - 1], scope);
      hide Without, Unexpired;
    }
  }

  lemma {:induction false} IdsAreStoredOnce(calls: seq<Call>)
    ensures Distinct(StoredIds(calls))
    ensures forall id :: id in Run(calls).ids <==> id in StoredIds(calls)
    decreases |calls|, 0
  {
    if calls != [] {
      var before, call := calls[..|calls| - 1], calls[|calls| - 1];
      IdsAreStoredOnce(before);
      if call.IngestCall? {
        StoredIff(before, call.event, call.now, call.form);
      }
      hide Without, Unexpired, Storable, Judge;
    }
  }

  /** In any run an event is stored exactly when its id was never stored before, not even for another scope or
      before a deletion, its scope's last answer is consent, and it is well formed and within its time. The right-hand
      side is read off the calls alone. */
  lemma {:induction false} StoredIff(calls: seq<Call>, e: Event, now: real, form: Form)
    ensures Judge(Run(calls), e, now, form) == Stored <==> Storable(calls, e, now, form)
    decreases |calls|, 1
  {
    IdsAreStoredOnce(calls);
    ConsentIsLast(calls, e.scope);
  }

  /** Every stored event belongs to a scope whose last answer is consent; each event stored is still there or was
      counted by exactly one opt-out, deletion or purge. */
  lemma {:induction false} ConsentAndAccounting(calls: seq<Call>)
    ensures var s := Run(calls);
            && (forall e :: e in s.events ==> LastConsent(calls, e.scope))
            && (forall e :: e in s.events ==> e.id in StoredIds(calls))
            && |StoredIds(calls)| == |s.events| + s.optedOut + s.deleted + s.purged
    decreases |calls|
  {
    if calls != [] {
      var before := calls[..|calls| - 1];
      ConsentAndAccounting(before);
      var call := calls[|calls| - 1];
      if call.IngestCall? {
        StoredIff(before, call.event, call.now, call.form);
      }
      hide Storable, Judge;
    }
  }

  /** Why an event is not stored: its id was stored before, its scope's last answer is not consent, it is ahead of the
      clock, or past its retention; or else it is malformed. */
  lemma VerdictIff(calls: seq<Call>, e: Event, now: real, form: Form)
    ensures var verdict := Judge(Run(calls), e, now, form);
            var known, consented := e.id in StoredIds(calls), LastConsent(calls, e.scope);
            && (verdict.Replayed? <==> !form.FieldsBroken? && known)
            && (verdict.ConsentRequired? <==> form !in {FieldsBroken, IdsBroken} && !known && !consented)
            && (verdict.FromFuture? <==>
                  form in {ContentBroken, WellFormed} && !known && consented && e.occurred - now > 2.0)
            && (verdict.Expired? <==>
                  && form in {ContentBroken, WellFormed} && !known && consented
                  && now - e.occurred > 30.0 * 24.0 * 3600.0)
            && (verdict.Malformed? ==> verdict.form == form && form != WellFormed)
  {
    IdsAreStoredOnce(calls);
    ConsentIsLast(calls, e.scope);
    hide Run, StoredIds, LastConsent;
    match form
    case FieldsBroken | IdsBroken | TypeUnknown | TimeBroken | ContentBroken | WellFormed =>
  }

  // ------------------------------------------------------- what removal leaves

  lemma {:induction false} FilterTwice(es: seq<Event>, p: Event -> bool, q: Event -> bool, both: Event -> bool)
    requires forall e :: both(e) <==> p(e) && q(e)
    ensures Filter(Filter(es, p), q) == Filter(es, both)
    decreases |es|
  {
    if es != [] {
      var before, e := es[..|es| - 1], es[|es| - 1];
      FilterTwice(before, p, q, both);
      if p(e) {
        assert (Filter(before, p) + [e])[..|Filter(before, p)|] == Filter(before, p);
      }
    }
  }

  lemma {:induction false} FilterAll(es: seq<Event>, p: Event -> bool)
    requires forall e :: e in es ==> p(e)
    ensures Filter(es, p) == es
    decreases |es|
  {
    if es != [] {
      assert es[|es| - 1] in es;
      assert es == es[..|es| - 1] + [es[|es| - 1]];
      FilterAll(es[..|es| - 1], p);
    }
  }

  lemma FilterNone(es: seq<Event>, p: Event -> bool)
    requires forall e :: e in es ==> !p(e)
    ensures Filter(es, p) == []
  {
    if Filter(es, p) != [] {
      assert Filter(es, p)[0] in Filter(es, p);
    }
  }

  /** Opting out and deleting remove exactly the scope's events and leave every other scope's, in order. */
  lemma WithoutLeavesOthers(es: seq<Event>, scope: Scope, other: Scope)
    ensures Of(Without(es, scope), other) == if other == scope then [] else Of(es, other)
  {
    if other == scope {
      FilterNone(Without(es, scope), (e: Event) => e.scope == other);
    } else {
      FilterTwice(es, (e: Event) => e.scope != scope, (e: Event) => e.scope == other, (e: Event) => e.scope == other);
    }
  }

  lemma AppendOf(es: seq<Event>, e: Event, scope: Scope)
    ensures Of(es + [e], scope) == Of(es, scope) + if e.scope == scope then [e] else []
  {
    assert (es + [e])[..|es|] == es;
  }

  /** What a call does to one scope's events, given what they were. */
  function ScopeStep(own: seq<Event>, scope: Scope, call: Call, stored: bool): seq<Event> {
    match call
    case ConsentCall(c, enabled) => if c == scope && !enabled then [] else own
    case IngestCall(e, _, _) => if e.scope == scope && stored then own + [e] else own
    case DeleteCall(c) => if c == scope then [] else own
    case PurgeCall(now) => Unexpired(own, now)
  }

  /** A call touches only its own scope's events, except that a purge drops the expired ones of every scope; what
      remains keeps its order. */
  lemma StepOnScope(s: State, call: Call, scope: Scope)
    ensures Of(Step(s, call).events, scope) ==
            ScopeStep(Of(s.events, scope), scope, call,
                      call.IngestCall? && Judge(s, call.event, call.now, call.form) == Stored)
  {
    match call
    case ConsentCall(c, enabled) => WithoutLeavesOthers(s.events, c, scope);
    case IngestCall(e, _, _) => AppendOf(s.events, e, scope);
    case DeleteCall(c) => WithoutLeavesOthers(s.events, c, scope);
    case PurgeCall(now) =>
      var mine := (e: Event) => e.scope == scope;
      var live := (e: Event) => ExpiresAt(e) > now;
      var both := (e: Event) => e.scope == scope && ExpiresAt(e) > now;
      FilterTwice(s.events, live, mine, both);
      FilterTwice(s.events, mine, live, both);
  }

  /** One scope's events, read off the calls alone. */
  function Own(calls: seq<Call>, scope: Scope): seq<Event> {
    if calls == [] then []
    else
      var before, call := calls[..|calls| - 1], calls[|calls| - 1];
      ScopeStep(Own(before, scope), scope, call,
                call.IngestCall? && Storable(before, call.event, call.now, call.form))
  }

  /** After any run a scope has exactly the events it stored since it last opted out or was deleted, less those
      purged, in the order they came. */
  lemma {:induction false} RunOnScope(calls: seq<Call>, scope: Scope)
    ensures Of(Run(calls).events, scope) == Own(calls, scope)
    decreases |calls|
  {
    if calls != [] {
      var before, call := calls[..|calls| - 1], calls[|calls| - 1];
      RunOnScope(before, scope);
      StepOnScope(Run(before), call, scope);
      if call.IngestCall? {
        StoredIff(before, call.event, call.now, call.form);
      }
    }
  }

  /** A purge leaves no event that is due, and no event that is not. */
  lemma PurgeIsExact(s: State, now: real)
    ensures forall e :: e in PurgeExpired(s, now).events <==> e in s.events && ExpiresAt(e) > now
  {
  }

  // ------------------------------------------------------------------ export

  predicate TextLess(a: string, b: string) {
    b != [] && (a == [] || a[0] < b[0] || (a[0] == b[0] && TextLess(a[1..], b[1..])))
  }

  predicate KeyLess(a: Event, b: Event) { TextLess(a.key, b.key) || (a.key == b.key && TextLess(a.token, b.token)) }

  lemma {:induction false} TextOrder(a: string, b: string, c: string)
    ensures TextLess(a, b) || TextLess(b, a) || a == b
    ensures !(TextLess(a, b) && TextLess(b, a)) && !TextLess(a, a)
    ensures TextLess(a, b) && TextLess(b, c) ==> TextLess(a, c)
    decreases |a| + |b| + |c|
  {
    if a != [] && b != [] && c != [] {
      TextOrder(a[1..], b[1..], c[1..]);
      assert a == [a[0]] + a[1..] && b == [b[0]] + b[1..];
    } else if a != [] && b != [] {
      TextOrder(a[1..], b[1..], c);
      assert a == [a[0]] + a[1..] && b == [b[0]] + b[1..];
    } else if a != [] {
      TextOrder(a[1..], b, c);
    }
  }

  lemma PrefixNext(s: string, j: nat)
    requires s != "" && j <= |s| - 1
    ensures s[..j + 1] == [s[0]] + s[1..][..j] && (j < |s| - 1 ==> s[1..][j] == s[j + 1])
  {
  }

  /** The order of texts is that of the first character in which they differ; a prefix comes first. */
  lemma {:induction false} TextLessIff(a: string, b: string) returns (k: nat)
    ensures k <= |a| && k <= |b| && a[..k] == b[..k] && (k < |a| && k < |b| ==> a[k] != b[k])
    ensures TextLess(a, b) <==> k < |b| && (k == |a| || a[k] < b[k])
    decreases |a|
  {
    k := 0;
    if a != [] && b != [] && a[0] == b[0] {
      var j := TextLessIff(a[1..], b[1..]);
      k := j + 1;
      PrefixNext(a, j);
      PrefixNext(b, j);
    }
  }

  /** Sorted means: by time text, and by token among those of one time text. */
  lemma SortedIff(es: seq<Event>)
    ensures Sorted(es) <==>
            forall i, j :: 0 <= i < j < |es| ==>
              || TextLess(es[i].key, es[j].key)
              || (es[i].key == es[j].key && (es[i].token == es[j].token || TextLess(es[i].token, es[j].token)))
  {
    forall i, j | 0 <= i < j < |es|
      ensures !KeyLess(es[j], es[i]) <==>
              || TextLess(es[i].key, es[j].key)
              || (es[i].key == es[j].key && (es[i].token == es[j].token || TextLess(es[i].token, es[j].token)))
    {
      TextOrder(es[i].key, es[j].key, es[i].key);
      TextOrder(es[i].token, es[j].token, es[i].token);
    }
    hide KeyLess;
  }

  predicate Sorted(es: seq<Event>) { forall i, j :: 0 <= i < j < |es| ==> !KeyLess(es[j], es[i]) }

  lemma KeyOrder(a: Event, b: Event, c: Event)
    ensures KeyLess(a, b) ==> !KeyLess(b, a)
    ensures !KeyLess(b, a) && !KeyLess(c, b) ==> !KeyLess(c, a)
  {
    TextOrder(a.key, b.key, c.key);
    TextOrder(b.key, c.key, a.key);
    TextOrder(c.key, a.key, b.key);
    TextOrder(c.key, b.key, a.key);
    TextOrder(a.token, b.token, c.token);
    TextOrder(b.token, c.token, a.token);
    TextOrder(c.token, a.token, b.token);
    TextOrder(c.token, b.token, a.token);
  }

  function Insert(es: seq<Event>, e: Event): seq<Event> {
    if es != [] && KeyLess(e, es[|es| - 1]) then Insert(es[..|es| - 1], e) + [es[|es| - 1]] else es + [e]
  }

  /** A stable sort by (occurrence text, token). */
  function SortByKey(es: seq<Event>): seq<Event> {
    if es == [] then [] else Insert(SortByKey(es[..|es| - 1]), es[|es| - 1])
  }

  lemma SortedAppend(es: seq<Event>, e: Event)
    requires Sorted(es) && forall i :: 0 <= i < |es| ==> !KeyLess(e, es[i])
    ensures Sorted(es + [e])
  {
    hide KeyLess;
  }

  lemma LastIsGreatest(es: seq<Event>, e: Event)
    requires Sorted(es) && es != [] && !KeyLess(e, es[|es| - 1])
    ensures forall i :: 0 <= i < |es| ==> !KeyLess(e, es[i])
  {
    hide KeyLess;
    forall i | 0 <= i < |es| - 1
      ensures !KeyLess(e, es[i])
    {
      KeyOrder(es[i], es[|es| - 1], e);
    }
  }

  lemma {:induction false} InsertSorts(es: seq<Event>, e: Event)
    requires Sorted(es)
    ensures Sorted(Insert(es, e)) && multiset(Insert(es, e)) == multiset(es) + multiset{e}
    decreases |es|
  {
    hide KeyLess;
    if es != [] {
      var n := |es| - 1;
      assert es == es[..n] + [es[n]];
      if KeyLess(e, es[n]) {
        InsertSorts(es[..n], e);
        var r := Insert(es[..n], e);
        forall i | 0 <= i < |r|
          ensures !KeyLess(es[n], r[i])
        {
          assert r[i] in multiset(r);
          KeyOrder(e, es[n], e);
        }
        SortedAppend(r, es[n]);
      } else {
        LastIsGreatest(es, e);
        SortedAppend(es, e);
      }
    }
  }

  lemma {:induction false} SortSorts(es: seq<Event>)
    ensures Sorted(SortByKey(es)) && multiset(SortByKey(es)) == multiset(es)
    decreases |es|
  {
    if es != [] {
      SortSorts(es[..|es| - 1]);
      InsertSorts(SortByKey(es[..|es| - 1]), es[|es| - 1]);
      assert es == es[..|es| - 1] + [es[|es| - 1]];
    }
  }

  /** The order of the keys is not the order of time: ISO text omits the fraction of a whole second, and the point sorts
      before the zone letter, so half a second later is exported earlier. */
  lemma {:induction false} KeysAreNotChronological(a: Event, b: Event, second: string)
    requires a.key == second + "Z" && b.key == second + ".500000Z" && b.occurred == a.occurred + 0.5
    ensures a.occurred < b.occurred && KeyLess(b, a) && SortByKey([a, b]) == [b, a]
  {
    SharedPrefix(second, ".500000Z", "Z");
    SortTwo(a, b);
  }

  lemma SortTwo(a: Event, b: Event)
    requires KeyLess(b, a)
    ensures SortByKey([a, b]) == [b, a]
  {
    hide KeyLess;
    assert SortByKey([a]) == [a] by {
      assert [a][..0] == [] && SortByKey([]) == [] && Insert([], a) == [a];
    }
    assert [a, b][..1] == [a] && [a][..0] == [];
    assert Insert([], b) == [b] && Insert([a], b) == [b, a];
  }

  lemma {:induction false} SharedPrefix(prefix: string, a: string, b: string)
    ensures TextLess(prefix + a, prefix + b) == TextLess(a, b)
    decreases |prefix|
  {
    if prefix == [] {
      assert [] + a == a && [] + b == b;
    } else {
      assert (prefix + a)[1..] == prefix[1..] + a && (prefix + b)[1..] == prefix[1..] + b;
      SharedPrefix(prefix[1..], a, b);
    }
  }

  /** An export is the scope's events, each as often as it is stored and nothing else, ordered by key. */
  function Export(s: State, scope: Scope): seq<Event> { SortByKey(Of(s.events, scope)) }

  lemma ExportIsExact(s: State, scope: Scope)
    ensures Sorted(Export(s, scope)) && multiset(Export(s, scope)) == multiset(Of(s.events, scope))
    ensures forall e :: e in Export(s, scope) <==> e in s.events && e.scope == scope
  {
    SortSorts(Of(s.events, scope));
    forall e: Event
      ensures e in Export(s, scope) <==> e in Of(s.events, scope)
    {
      assert e in Export(s, scope) <==> e in multiset(Export(s, scope));
      assert e in Of(s.events, scope) <==> e in multiset(Of(s.events, scope));
    }
  }

  class BetaTelemetryPrivacyService {
    var consent: map<Scope, bool>
    var events: seq<Event>
    var eventIds: set<string>

    ghost var optedOut: nat
    ghost var deleted: nat
    ghost var purged: nat

    ghost function View(): State
      reads this
    {
      State(consent, events, eventIds, optedOut, deleted, purged)
    }

    constructor ()
      ensures View() == Initial
    {
      consent, events, eventIds := map[], [], {};
      optedOut, deleted, purged := 0, 0, 0;
    }

    method SetConsent(scope: Scope, enabled: bool) returns (removed: nat)
      modifies this
      ensures View() == Step(old(View()), ConsentCall(scope, enabled))
      ensures removed == |old(events)| - |events| == optedOut - old(optedOut)
    {
      consent := consent[scope := enabled];
      removed := 0;
      if !enabled {
        var before := |events|;
        events := Without(events, scope);
        removed := before - |events|;
        optedOut := optedOut + removed;
      }
    }

    method Ingest(e: Event, now: real, form: Form) returns (verdict: Verdict)
      modifies this
      ensures View() == Step(old(View()), IngestCall(e, now, form))
      ensures verdict == Judge(old(View()), e, now, form)
    {
      if form.FieldsBroken? {
        return Malformed(form);
      }
      if e.id in eventIds {
        return Replayed;
      }
      if form.IdsBroken? {
        return Malformed(form);
      }
      if !(e.scope in consent && consent[e.scope]) {
        return ConsentRequired;
      }
      if form.TypeUnknown? || form.TimeBroken? {
        return Malformed(form);
      }
      if e.occurred > now + CLOCK_SKEW_SECONDS {
        return FromFuture;
      }
      if now - e.occurred > RETENTION_SECONDS {
        return Expired;
      }
      if form.ContentBroken? {
        return Malformed(form);
      }
      eventIds := eventIds + {e.id};
      events := events + [e];
      return Stored;
    }

    method ExportEvents(scope: Scope) returns (r: seq<Event>)
      ensures Sorted(r) && multiset(r) == multiset(Of(events, scope))
      ensures forall e :: e in r <==> e in events && e.scope == scope
    {
      r := SortByKey(Of(events, scope));
      ExportIsExact(State(consent, events, eventIds, optedOut, deleted, purged), scope);
    }

    method DeleteScope(scope: Scope) returns (removed: nat)
      modifies this
      ensures View() == Step(old(View()), DeleteCall(scope))
      ensures removed == |old(events)| - |events| == deleted - old(deleted)
    {
      var before := |events|;
      events := Without(events, scope);
      removed := before - |events|;
      deleted := deleted + removed;
    }

    method Purge(now: real) returns (removed: nat)
      modifies this
      ensures View() == Step(old(View()), PurgeCall(now))
      ensures removed == |old(events)| - |events| == purged - old(purged)
    {
      var before := |events|;
      events := Unexpired(events, now);
      removed := before - |events|;
      purged := purged + removed;
    }
  }
}
