/** The session object: its notification table of future-holding records, and its histories. */
module KarakuriSession {
  import opened Wrappers
  import opened OrderedStore
  import opened KarakuriNotifications
  import opened KarakuriExactlyOnce
  import opened BoundedDeque
  import History = KarakuriHistory

  class NotificationRecord {
    const id: string
    ghost const ref: nat
    var future: Future
    var result: Option<SessionResult>

    constructor (id: string, ghost ref: nat)
      ensures this.id == id && this.ref == ref && Value() == Rec(id, Pending, None)
    {
      this.id := id;
      this.ref := ref;
      future := Pending;
      result := None;
    }

    ghost function Value(): Rec
      reads this
    {
      Rec(id, future, result)
    }
  }

  class KarakuriSession {
    const maxNotifications: nat
    const maxHistoryTurns: nat
    var notifications: Store<string, NotificationRecord>
    var histories: map<string, seq<History.Turn>>
    var lastRecontact: map<string, real>

    ghost var registry: seq<NotificationRecord>
    ghost var tasks: map<nat, Task>
    ghost var answers: seq<Answer>

    ghost predicate Owns(record: NotificationRecord)
      reads this
    {
      record.ref < |registry| && registry[record.ref] == record
    }

    ghost predicate Valid()
      reads this
    {
      && notifications.Valid()
      && (forall i: nat :: i < |registry| ==> registry[i].ref == i)
      && (forall id :: id in notifications.vals ==> Owns(notifications.vals[id]))
    }

    ghost function Records(): (r: seq<Rec>)
      reads this, registry
      ensures |r| == |registry|
    {
      seq(|registry|, i requires 0 <= i < |registry| reads this, registry => registry[i].Value())
    }

    ghost function Table(): Store<string, nat>
      reads this
    {
      TableOf(notifications)
    }

    ghost function View(): State
      reads this, registry
    {
      State(maxNotifications, Table(), Records(), tasks, answers)
    }

    constructor (maxNotifications: nat, maxHistoryTurns: nat)
      ensures Valid() && View() == Initial(maxNotifications) && histories == map[] && lastRecontact == map[]
      ensures this.maxHistoryTurns == maxHistoryTurns && fresh(this)
    {
      this.maxNotifications, this.maxHistoryTurns := maxNotifications, maxHistoryTurns;
      notifications, histories, lastRecontact := Store([], map[]), map[], map[];
      registry, tasks, answers := [], map[], [];
    }

    /** `_trim_notifications`. */
    method TrimNotifications()
      requires Valid()
      modifies this`notifications
      ensures Valid()
      ensures View() == old(View()).(table := Trim(old(Table()), old(Records()), maxNotifications))
    {
      hide Trim;
      while |notifications.keys| > maxNotifications
        invariant Valid() && Records() == old(Records())
        invariant Trim(Table(), Records(), maxNotifications) == Trim(old(Table()), old(Records()), maxNotifications)
        decreases |notifications.keys|
      {
        OldestIsPresent(notifications);
        var record := notifications.Get(notifications.keys[0]);
        assert Owns(record) && Records()[record.ref] == record.Value();
        if record.future.Pending? {
          break;
        }
        TrimUnfolds(Table(), Records(), maxNotifications);
        DropsOldest(notifications);
        notifications := notifications.DropOldest();
        assert Records() == old(Records());
      }
      TrimUnfolds(Table(), Records(), maxNotifications);
    }

    /** A new record under a free id. */
    method AddRecord(ghost t: nat, id: string) returns (record: NotificationRecord)
      requires Valid() && t !in tasks && !notifications.Has(id)
      modifies this`notifications, this`registry, this`tasks
      ensures Valid() && registry == old(registry) + [record] && record.ref == |old(registry)|
      ensures View() == old(View()).(table := old(Table()).Put(id, |old(registry)|),
                                     records := old(Records()) + [Rec(id, Pending, None)],
                                     tasks := old(tasks)[t := Running(id, |old(registry)|)])
    {
      hide Store.Valid;
      record := new NotificationRecord(id, |registry|);
      registry := registry + [record];
      PutsRef(notifications, id, record);
      notifications := notifications.Put(id, record);
      tasks := tasks[t := Running(id, record.ref)];
      forall i: nat | i < |old(registry)|
        ensures registry[i].Value() == old(registry[i].Value())
      {
        assert old(registry)[i] in old(registry);
      }
      assert Records() == old(Records()) + [Rec(id, Pending, None)];
    }

    /** The locked lookup of `handle_notification`: an answer from a settled record, a wait for a shared
        future, or a new record to process. */
    method Arrive(ghost t: nat, id: string) returns (answer: Option<SessionResult>, record: NotificationRecord)
      requires Valid() && t !in tasks
      modifies this`notifications, this`registry, this`tasks, this`answers
      ensures Valid() && old(registry) <= registry && Owns(record)
      ensures View() == Deliver(old(View()), t, id)
      ensures answers == if answer.Some? then old(answers) + [Answer(record.ref, answer.value)] else old(answers)
      ensures answer.None? ==> t in tasks && tasks[t].ref == record.ref
    {
      hide Trim;
      answer := None;
      if !notifications.Has(id) {
        record := AddRecord(t, id);
        TrimNotifications();
        return;
      }
      record := notifications.Get(id);
      assert Owns(record) && Records()[record.ref] == record.Value() && Table().Get(id) == record.ref;
      if record.result.Some? {
        answer := Some(DuplicateOf(record.result.value));
        answers := answers + [Answer(record.ref, answer.value)];
      } else {
        tasks := tasks[t := Waiting(id, record.ref)];
      }
      assert Records() == old(Records());
    }

    twostate lemma Wrote(record: NotificationRecord)
      requires old(Valid()) && Valid() && old(Owns(record)) && registry == old(registry)
      requires forall c :: c in registry && c != record ==> unchanged(c)
      ensures Records() == old(Records())[record.ref := record.Value()]
    {
      forall i: nat | i < |registry| && i != record.ref
        ensures registry[i].Value() == old(registry[i].Value())
      {
        assert registry[i] in registry;
      }
    }

    /** The locked settling of a processed notification. */
    method Settle(ghost t: nat, id: string, result: SessionResult)
      requires Valid() && t in tasks && tasks[t].Running? && tasks[t].id == id
      modifies this, if notifications.Has(id) then {notifications.Get(id)} else {}
      ensures Valid() && histories == old(histories) && registry == old(registry)
      ensures View() == KarakuriNotifications.Settle(old(View()), t, result)
    {
      hide Store.Valid, Trim;
      answers := answers + [Answer(tasks[t].ref, result)];
      tasks := tasks - {t};
      if notifications.Has(id) {
        var record := notifications.Get(id);
        assert Owns(record) && old(Records())[record.ref] == old(record.Value());
        record.result := Some(result);
        if record.future.Pending? {
          record.future := Resolved(result);
        }
        Wrote(record);
        TrimNotifications();
      } else {
        assert Records() == old(Records());
      }
    }

    /** The processing task is cancelled: its record's future is cancelled too. */
    method CancelOwner(ghost t: nat, id: string)
      requires Valid() && t in tasks && tasks[t].Running? && tasks[t].id == id
      modifies this`tasks, if notifications.Has(id) then {notifications.Get(id)} else {}
      ensures Valid() && registry == old(registry)
      ensures View() == Apply(old(View()), KarakuriNotifications.CancelOwner(t))
    {
      tasks := tasks - {t};
      if notifications.Has(id) {
        var record := notifications.Get(id);
        assert Owns(record) && old(Records())[record.ref] == old(record.Value());
        if record.future.Pending? {
          record.future := Cancelled;
        }
        Wrote(record);
        assert old(Records())[record.ref := old(record.Value())] == old(Records());
      } else {
        assert Records() == old(Records());
      }
    }

    /** `turns.extend((user_turn, assistant_turn))` under the lock, and the start of a cooldown. */
    method RecordExchange(conversation: string, exchange: History.Exchange, contact: Option<string>)
      modifies this`histories, this`lastRecontact
      ensures var op := History.Record(conversation, exchange, contact);
              && histories == History.Step(old(histories), op, maxHistoryTurns)
              && lastRecontact == History.StepContacts(old(lastRecontact), op)
    {
      var turns := if conversation in histories then histories[conversation] else [];
      turns := Extend(turns, History.TurnsOf(exchange), maxHistoryTurns * 2);
      histories := histories[conversation := turns];
      if contact.Some? {
        lastRecontact := lastRecontact[contact.value := exchange.createdAt];
      }
    }

    /** `reset`. */
    method Reset(conversation: Option<string>)
      modifies this`histories, this`lastRecontact
      ensures var op := if conversation.None? then History.ForgetAll else History.Forget(conversation.value);
              && histories == History.Step(old(histories), op, maxHistoryTurns)
              && lastRecontact == History.StepContacts(old(lastRecontact), op)
    {
      if conversation.None? {
        histories, lastRecontact := map[], map[];
        return;
      }
      histories := histories - {conversation.value};
      lastRecontact := lastRecontact - {conversation.value};
    }
  }

  ghost function TableOf(n: Store<string, NotificationRecord>): Store<string, nat> {
    Store(n.keys, map id | id in n.vals :: n.vals[id].ref)
  }

  lemma OldestIsPresent(n: Store<string, NotificationRecord>)
    requires n.Valid() && n.keys != []
    ensures n.Has(n.keys[0])
  {
    assert n.keys[0] in n.keys;
  }

  lemma PutsRef(n: Store<string, NotificationRecord>, id: string, record: NotificationRecord)
    requires n.Valid()
    ensures n.Put(id, record).Valid() && TableOf(n.Put(id, record)) == TableOf(n).Put(id, record.ref)
  {
    PutValid(n, id, record);
    assert TableOf(n.Put(id, record)).vals == TableOf(n).Put(id, record.ref).vals;
  }

  lemma DropsOldest(n: Store<string, NotificationRecord>)
    requires n.Valid() && n.keys != []
    ensures n.DropOldest().Valid() && TableOf(n.DropOldest()) == TableOf(n).DropOldest()
  {
    DropOldestValid(n);
    assert TableOf(n.DropOldest()).vals == TableOf(n).DropOldest().vals;
  }

  lemma TrimUnfolds(table: Store<string, nat>, records: seq<Rec>, max: nat)
    ensures Trim(table, records, max) ==
            if |table.keys| > max && SettledIn(table, records, table.keys[0])
            then Trim(table.DropOldest(), records, max) else table
  {
  }
}
