/** The outbox seen device by device: the queue each device's rows form in listing order. */
module DeviceQueues {
  import opened Wrappers
  import opened Protocol
  import opened Sequences
  import opened VaultStore

  /** What a device has pending, oldest first. */
  function Pending(db: Database, deviceId: string): seq<OutboxItem> { Filter(Items(db), OfDevice(deviceId)) }

  function ItemOtherThan(deviceId: string, eventId: string): OutboxItem -> bool {
    (item: OutboxItem) => !(item.deviceId == deviceId && item.eventId == eventId)
  }

  lemma AcknowledgedItems(db: Database, deviceId: string, eventId: string)
    ensures Items(Acknowledge(db, deviceId, eventId)) == Filter(Items(db), ItemOtherThan(deviceId, eventId))
  {
    FilterMap(db.outbox, ItemOf, ItemOtherThan(deviceId, eventId), OtherThan(deviceId, eventId));
  }

  function OfDeviceOtherThan(of: string, deviceId: string, eventId: string): OutboxItem -> bool {
    (item: OutboxItem) => item.deviceId == of && !(item.deviceId == deviceId && item.eventId == eventId)
  }

  lemma AcknowledgeWithin(db: Database, of: string, deviceId: string, eventId: string)
    ensures Pending(Acknowledge(db, deviceId, eventId), of)
            == Filter(Pending(db, of), ItemOtherThan(deviceId, eventId))
  {
    AcknowledgedItems(db, deviceId, eventId);
    FilterTwice(Items(db), ItemOtherThan(deviceId, eventId), OfDevice(of), OfDeviceOtherThan(of, deviceId, eventId));
    FilterTwice(Items(db), OfDevice(of), ItemOtherThan(deviceId, eventId), OfDeviceOtherThan(of, deviceId, eventId));
  }

  ghost predicate ItemsDiffer(items: seq<OutboxItem>) {
    forall i, j | 0 <= i < j < |items| :: items[i].eventId != items[j].eventId
  }

  lemma {:induction false} FilterKeepsDiffering(items: seq<OutboxItem>, keep: OutboxItem -> bool)
    requires ItemsDiffer(items)
    ensures ItemsDiffer(Filter(items, keep))
  {
    if items != [] {
      var init, last := items[..|items| - 1], items[|items| - 1];
      FilterKeepsDiffering(init, keep);
      FilterMembers(init, keep);
      forall item | item in Filter(init, keep)
        ensures item.eventId != last.eventId
      {
        assert item in init;
      }
    }
  }

  lemma PendingDiffer(db: Database, deviceId: string)
    requires EventsDiffer(db.outbox)
    ensures ItemsDiffer(Pending(db, deviceId))
  {
    assert ItemsDiffer(Items(db));
    FilterKeepsDiffering(Items(db), OfDevice(deviceId));
  }

  lemma DropHead(pending: seq<OutboxItem>, keep: OutboxItem -> bool)
    requires pending != [] && ItemsDiffer(pending)
    requires forall item | item in pending :: keep(item) <==> item.eventId != pending[0].eventId
    ensures Filter(pending, keep) == pending[1..]
  {
    forall i | 0 <= i < |pending|
      ensures keep(pending[i]) == (i != 0)
    {
      assert pending[i] in pending;
    }
    FilterDropsOne(pending, 0, keep);
  }

  /** Acknowledging a device's oldest row leaves it the rest, and every other device all it had. */
  lemma AcknowledgeHead(db: Database, deviceId: string, eventId: string, of: string)
    requires EventsDiffer(db.outbox)
    requires Pending(db, deviceId) != [] && Pending(db, deviceId)[0].eventId == eventId
    ensures Pending(Acknowledge(db, deviceId, eventId), of)
            == if of == deviceId then Pending(db, deviceId)[1..] else Pending(db, of)
  {
    AcknowledgeWithin(db, of, deviceId, eventId);
    FilterMembers(Items(db), OfDevice(of));
    PendingDiffer(db, of);
    hide Filter, Acknowledge, Items, EventsDiffer, ItemsDiffer;
    if of == deviceId {
      DropHead(Pending(db, of), ItemOtherThan(deviceId, eventId));
    } else {
      FilterAll(Pending(db, of), ItemOtherThan(deviceId, eventId));
    }
  }

  lemma CommitAppends(db: Database, snapshot: Bytes, item: OutboxItem, message: Option<VaultMessage>, of: string)
    ensures Pending(Committed(db, snapshot, item, message), of)
            == if of == item.deviceId then Pending(db, of) + [item] else Pending(db, of)
  {
    assert Items(Committed(db, snapshot, item, message)) == Items(db) + [item];
    FilterLast(Items(db), item, OfDevice(of));
  }

  lemma PendingIsPresent(db: Database, deviceId: string, k: nat)
    requires k < |Pending(db, deviceId)|
    ensures Pending(db, deviceId)[k].deviceId == deviceId
    ensures exists row :: row in db.outbox && row.item == Pending(db, deviceId)[k]
  {
    FilterMembers(Items(db), OfDevice(deviceId));
    var item := Pending(db, deviceId)[k];
    assert item in Pending(db, deviceId);
    var i :| 0 <= i < |db.outbox| && Items(db)[i] == item;
    assert db.outbox[i].item == item;
  }

  /** Later rows cannot overtake: what was pending is a prefix of what is pending after appends. */
  lemma AppendsKeepPrefix(before: Database, after: Database, of: string)
    requires before.outbox <= after.outbox
    ensures Pending(before, of) <= Pending(after, of)
  {
    assert Items(before) <= Items(after);
    FilterPrefix(Items(before), Items(after), OfDevice(of));
  }
}
