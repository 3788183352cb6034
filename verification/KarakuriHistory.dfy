/** A session's bounded conversation histories and its bounded retries. */
module KarakuriHistory {
  import opened Wrappers
  import opened BoundedDeque

  // ------------------------------------------------------------ histories

  datatype Role = User | Assistant

  datatype Turn = Turn(role: Role, text: string, notificationId: string, createdAt: real)

  datatype Exchange = Exchange(text: string, response: string, notificationId: string, createdAt: real)

  function TurnsOf(e: Exchange): seq<Turn> {
    [Turn(User, e.text, e.notificationId, e.createdAt), Turn(Assistant, e.response, e.notificationId, e.createdAt)]
  }

  function Transcript(es: seq<Exchange>): (t: seq<Turn>)
    ensures |t| == 2 * |es|
  {
    if es == [] then [] else TurnsOf(es[0]) + Transcript(es[1..])
  }

  lemma {:induction false} TranscriptAppend(es: seq<Exchange>, e: Exchange)
    ensures Transcript(es + [e]) == Transcript(es) + TurnsOf(e)
    decreases |es|
  {
    if es == [] {
      assert [e][1..] == [];
    } else {
      assert (es + [e])[1..] == es[1..] + [e];
      TranscriptAppend(es[1..], e);
    }
  }

  lemma TranscriptFits(es: seq<Exchange>, k: nat)
    ensures |es| <= k ==> Last(Transcript(es), 2 * k) == Transcript(es) && Last(es, k) == es
  {
  }

  /** The last 2k turns of a transcript are the transcript of its last k exchanges. */
  lemma {:induction false} TranscriptSuffix(es: seq<Exchange>, k: nat)
    ensures Last(Transcript(es), 2 * k) == Transcript(Last(es, k))
    decreases |es|
  {
    hide Last, TurnsOf;
    TranscriptFits(es, k);
    if |es| > k {
      TranscriptSuffix(es[1..], k);
      var rest := Transcript(es[1..]);
      assert Transcript(es) == TurnsOf(es[0]) + rest;
      LastOfLonger(TurnsOf(es[0]), rest, 2 * k);
      LastOfLonger([es[0]], es[1..], k);
      assert es == [es[0]] + es[1..];
    }
  }

  lemma RecordKeepsTranscript(es: seq<Exchange>, e: Exchange, k: nat)
    ensures Extend(Transcript(Last(es, k)), TurnsOf(e), k * 2) == Transcript(Last(es + [e], k))
  {
    TranscriptSuffix(es, k);
    ExtendIsLast(Transcript(es), TurnsOf(e), 2 * k);
    TranscriptAppend(es, e);
    TranscriptSuffix(es + [e], k);
  }

  /** What happens to histories: an exchange is recorded, one conversation or all are forgotten. */
  datatype Op =
    /** `contact` is the key of the cooldown this exchange starts, if it is a recontact. */
    | Record(conversation: string, exchange: Exchange, contact: Option<string>)
    | Forget(conversation: string)
    | ForgetAll

  function Step(h: map<string, seq<Turn>>, op: Op, maxTurns: nat): map<string, seq<Turn>> {
    match op
    case Record(c, e, _) => h[c := Extend(if c in h then h[c] else [], TurnsOf(e), maxTurns * 2)]
    case Forget(c) => h - {c}
    case ForgetAll => map[]
  }

  function Run(ops: seq<Op>, maxTurns: nat): map<string, seq<Turn>> {
    if ops == [] then map[] else Step(Run(ops[..|ops| - 1], maxTurns), ops[|ops| - 1], maxTurns)
  }

  /** The exchanges of a conversation since it was last forgotten. */
  function Since(ops: seq<Op>, c: string): seq<Exchange> {
    if ops == [] then []
    else
      var op := ops[|ops| - 1];
      if op.ForgetAll? || (op.Forget? && op.conversation == c) then []
      else Since(ops[..|ops| - 1], c) + if op.Record? && op.conversation == c then [op.exchange] else []
  }

  /** `history(conversation_id)`. */
  function HistoryOf(h: map<string, seq<Turn>>, c: string): seq<Turn> { if c in h then h[c] else [] }

  lemma StepHistory(h: map<string, seq<Turn>>, op: Op, maxTurns: nat, c: string)
    ensures HistoryOf(Step(h, op, maxTurns), c) ==
            if op.ForgetAll? || (op.Forget? && op.conversation == c) then []
            else if op.Record? && op.conversation == c then Extend(HistoryOf(h, c), TurnsOf(op.exchange), maxTurns * 2)
            else HistoryOf(h, c)
  {
    hide Extend;
  }

  /** Whatever is interleaved, a history is the transcript of the conversation's latest exchanges since it was
      forgotten: whole (user, assistant) pairs of one notification, at most `maxTurns` of them, none lost before
      it is displaced. */
  lemma {:induction false} HistoryIsRecentExchanges(ops: seq<Op>, maxTurns: nat, c: string)
    ensures HistoryOf(Run(ops, maxTurns), c) == Transcript(Last(Since(ops, c), maxTurns))
    decreases |ops|
  {
    NothingYet(maxTurns);
    if ops != [] {
      var before, op := ops[..|ops| - 1], ops[|ops| - 1];
      HistoryIsRecentExchanges(before, maxTurns, c);
      StepHistory(Run(before, maxTurns), op, maxTurns, c);
      hide Extend, Transcript, Last, HistoryOf, Step;
      if op.Record? && op.conversation == c {
        RecordKeepsTranscript(Since(before, c), op.exchange, maxTurns);
      } else {
        assert Since(before, c) + [] == Since(before, c);
      }
    }
  }

  lemma NothingYet(maxTurns: nat)
    ensures Transcript(Last([], maxTurns)) == []
  {
  }

  ghost predicate Paired(t: seq<Turn>) {
    |t| % 2 == 0 && forall i :: 0 <= i < |t| && i % 2 == 0 ==>
      t[i].role == User && t[i + 1].role == Assistant && t[i].notificationId == t[i + 1].notificationId
  }

  lemma {:induction false} TranscriptIsPaired(es: seq<Exchange>)
    ensures Paired(Transcript(es))
    decreases |es|
  {
    if es != [] {
      TranscriptIsPaired(es[1..]);
      var rest, t := Transcript(es[1..]), Transcript(es);
      forall i | 0 <= i < |t| && i % 2 == 0
        ensures t[i].role == User && t[i + 1].role == Assistant && t[i].notificationId == t[i + 1].notificationId
      {
        if i >= 2 {
          assert (i - 2) % 2 == 0;
          assert t[i] == rest[i - 2] && t[i + 1] == rest[i - 1];
        }
      }
    }
  }

  /** Every history is at all times a sequence of pairs, never longer than twice the limit. */
  lemma HistoriesArePaired(ops: seq<Op>, maxTurns: nat, c: string)
    requires c in Run(ops, maxTurns)
    ensures Paired(Run(ops, maxTurns)[c]) && |Run(ops, maxTurns)[c]| <= 2 * maxTurns
  {
    HistoryIsRecentExchanges(ops, maxTurns, c);
    TranscriptIsPaired(Last(Since(ops, c), maxTurns));
  }

  /** The times of the last recontacts; forgetting a conversation forgets the contact of the same name. */
  function StepContacts(r: map<string, real>, op: Op): map<string, real> {
    match op
    case Record(_, e, contact) => if contact.Some? then r[contact.value := e.createdAt] else r
    case Forget(c) => r - {c}
    case ForgetAll => map[]
  }

  function RunContacts(ops: seq<Op>): map<string, real> {
    if ops == [] then map[] else StepContacts(RunContacts(ops[..|ops| - 1]), ops[|ops| - 1])
  }

  /** The recontacts of a contact since it was forgotten. */
  function Recontacts(ops: seq<Op>, contact: string): seq<real> {
    if ops == [] then []
    else
      var op := ops[|ops| - 1];
      if op.ForgetAll? || (op.Forget? && op.conversation == contact) then []
      else
        Recontacts(ops[..|ops| - 1], contact)
        + if op.Record? && op.contact == Some(contact) then [op.exchange.createdAt] else []
  }

  /** A cooldown is counted from the latest recontact since the contact was forgotten, and from none else. */
  lemma {:induction false} CooldownIsFromLatest(ops: seq<Op>, contact: string)
    ensures var r, times := RunContacts(ops), Recontacts(ops, contact);
            (contact in r <==> times != []) && (times != [] ==> r[contact] == times[|times| - 1])
    decreases |ops|
  {
    if ops != [] {
      CooldownIsFromLatest(ops[..|ops| - 1], contact);
    }
  }

  // -------------------------------------------------------------- retries

  /** What one invocation of the responder yields; `text` is stripped and truncated. */
  datatype Attempt = Replied(text: string) | OutOfTime | Failing(error: string) | Interrupted

  function Pow2(n: nat): nat { if n == 0 then 1 else 2 * Pow2(n - 1) }

  function Delay(attempt: nat, backoff: real): real { backoff * Pow2(attempt) as real }

  /** The delays slept after `k` failures, one by one. */
  function Backoffs(k: nat, backoff: real): real {
    if k == 0 then 0.0 else Backoffs(k - 1, backoff) + Delay(k - 1, backoff)
  }

  /** After `k` failures the delays sum to backoff * (2^k - 1). */
  lemma {:induction false} BackoffsSum(k: nat, backoff: real)
    ensures Backoffs(k, backoff) == backoff * (Pow2(k) - 1) as real
  {
    if k > 0 {
      BackoffsSum(k - 1, backoff);
      var p := Pow2(k - 1) as real;
      assert (Pow2(k - 1) - 1) as real == p - 1.0 && (Pow2(k) - 1) as real == 2.0 * p - 1.0;
    }
  }

  datatype Response =
    | Responded(text: string, attempts: nat)
    | Exhausted(attempts: nat, timedOut: bool, error: string)
    | CancelledAt(attempts: nat)
    | CancelledAsleep(attempts: nat)

  /** `_respond`: `script` is what each of the `maxRetries + 1` attempts would yield, `broken` says which of the backoff
      sleeps between them would be cancelled; `slept` is the sum of the delays slept out. It stops at the first attempt
      that does not fail or at the first cancelled sleep, and otherwise reports the last failure. */
  method Respond(script: seq<Attempt>, broken: seq<bool>, maxRetries: nat, backoff: real)
    returns (r: Response, slept: real)
    requires |script| == maxRetries + 1 && |broken| == maxRetries && backoff >= 0.0
    ensures 1 <= r.attempts <= maxRetries + 1
    ensures forall i :: 0 <= i < r.attempts - 1 ==>
              && script[i] != Interrupted && (script[i].Replied? ==> script[i].text == "")
              && (backoff != 0.0 ==> !broken[i])
    ensures slept == Backoffs(r.attempts - 1, backoff)
    ensures var last := script[r.attempts - 1];
            match r
            case Responded(text, _) => last == Replied(text) && text != ""
            case CancelledAt(_) => last == Interrupted
            case CancelledAsleep(n) =>
              && n <= maxRetries && last != Interrupted && (last.Replied? ==> last.text == "")
              && backoff != 0.0 && broken[n - 1]
            case Exhausted(n, timedOut, error) =>
              && n == maxRetries + 1 && timedOut == (last == OutOfTime)
              && match last
                 case OutOfTime => error == "response_timeout"
                 case Failing(e) => error == e
                 case Replied(text) => text == "" && error == "ValueError"
                 case Interrupted => false
  {
    hide Pow2;
    slept := 0.0;
    var timedOut, lastError := false, "";
    for attempt := 0 to maxRetries + 1
      invariant forall i :: 0 <= i < attempt ==>
                  script[i] != Interrupted && (script[i].Replied? ==> script[i].text == "")
      invariant forall i :: 0 <= i < attempt && i < maxRetries && backoff != 0.0 ==> !broken[i]
      invariant attempt > 0 ==>
                  && timedOut == (script[attempt - 1] == OutOfTime)
                  && match script[attempt - 1]
                     case OutOfTime => lastError == "response_timeout"
                     case Failing(e) => lastError == e
                     case Replied(_) => lastError == "ValueError"
                     case Interrupted => false
      invariant slept == Backoffs(if attempt <= maxRetries then attempt else maxRetries, backoff)
    {
      match script[attempt] {
        case Replied(text) =>
          if text != "" {
            return Responded(text, attempt + 1), slept;
          }
          timedOut, lastError := false, "ValueError";
        case Interrupted =>
          return CancelledAt(attempt + 1), slept;
        case OutOfTime =>
          timedOut, lastError := true, "response_timeout";
        case Failing(error) =>
          timedOut, lastError := false, error;
      }
      if attempt < maxRetries && backoff != 0.0 {
        if broken[attempt] {
          return CancelledAsleep(attempt + 1), slept;
        }
        slept := slept + Delay(attempt, backoff);
      } else if backoff == 0.0 {
        assert Delay(attempt, backoff) == 0.0;
      }
    }
    r := Exhausted(maxRetries + 1, timedOut, lastError);
  }
}
