/** One pass of the outbox publishers of app/queue/outbox.py and app/benchmarks/queue.py. */
module Publisher {
  import opened Core
  import opened Retry
  import opened Delivery

  /** The queue takes the message, refuses it, or takes it and loses the reply. */
  datatype Reply = Accepted | Refused | Lost

  predicate Ready(m: Mail, e: nat) {
    e in m.outbox.events && !m.outbox.events[e].published && m.outbox.events[e].ready <= m.clock
  }

  /** What one event looks like after the publisher has handled it at `now`. */
  function Handled(event: Event, reply: Reply, now: Time, base: real): Event {
    if reply == Accepted then event.(published := true, tries := event.tries + 1)
    else event.(tries := event.tries + 1, ready := now + RetryDelay(event.tries + 1, base))
  }

  /** Clock readings of one pass, none of them before `from`. */
  predicate Readings(times: seq<Time>, from: Time) {
    && (forall i :: 0 <= i < |times| ==> from <= times[i])
    && (forall i, j :: 0 <= i < j < |times| ==> times[i] <= times[j])
  }

  predicate Kept(before: map<nat, Message>, after: map<nat, Message>) {
    forall id :: id in before ==> id in after && after[id] == before[id]
  }

  /** A message for the event is in the queue. */
  predicate Queued(events: map<nat, Event>, messages: map<nat, Message>, e: nat) {
    e in events && HasMessage(messages, events[e].item, events[e].tag)
  }

  lemma QueueGrows(events: map<nat, Event>, before: map<nat, Message>, after: map<nat, Message>)
    requires Kept(before, after)
    ensures forall e :: Queued(events, before, e) ==> Queued(events, after, e)
  {
    MoreMessages(map[], before, after);
    forall e | Queued(events, before, e) ensures Queued(events, after, e) {
      assert Delivered(map[], before, events[e].item, events[e].tag);
      assert Delivered(map[], after, events[e].item, events[e].tag);
    }
  }

  lemma Enqueued(events: map<nat, Event>, messages: map<nat, Message>, e: nat, id: nat)
    requires e in events && id in messages
    requires messages[id].item == events[e].item && messages[id].tag == events[e].tag
    ensures Queued(events, messages, e)
  {
  }

  function AcceptedCount(replies: seq<Reply>): nat {
    if replies == [] then 0
    else AcceptedCount(replies[..|replies| - 1]) + if replies[|replies| - 1] == Accepted then 1 else 0
  }

  class OutboxPublisher {
    const base: real
    var mail: Mail

    constructor (base: real, mail: Mail)
      ensures this.base == base && this.mail == mail
    {
      this.base, this.mail := base, mail;
    }

    /** Unpublished events whose time has come, oldest first; event numbers grow with creation. */
    method ReadyOutbox(limit: nat) returns (batch: seq<nat>)
      requires forall e :: e in mail.outbox.events ==> e < mail.outbox.next
      ensures |batch| <= limit
      ensures forall k :: 0 <= k < |batch| ==> Ready(mail, batch[k])
      ensures forall i, k :: 0 <= i < k < |batch| ==> batch[i] < batch[k]
      ensures forall e :: Ready(mail, e) && e !in batch ==>
        |batch| == limit && forall k :: 0 <= k < |batch| ==> batch[k] < e
    {
      batch := [];
      for e := 0 to mail.outbox.next
        invariant |batch| <= limit
        invariant forall k :: 0 <= k < |batch| ==> batch[k] < e && Ready(mail, batch[k])
        invariant forall i, k :: 0 <= i < k < |batch| ==> batch[i] < batch[k]
        invariant forall d: nat :: d < e && Ready(mail, d) && d !in batch ==>
          |batch| == limit && forall k :: 0 <= k < |batch| ==> batch[k] < d
      {
        if |batch| < limit && e in mail.outbox.events && !mail.outbox.events[e].published
           && mail.outbox.events[e].ready <= mail.clock {
          batch := batch + [e];
        }
      }
    }

    /** List, enqueue, then mark one event; a lost reply marks it failed although it was queued. */
    method HandleOne(e: nat, reply: Reply, now: Time, ghost v: Views) returns (ok: bool)
      requires base >= 0.0 && Inv(v, mail) && mail.listings == map[] && Ready(mail, e) && mail.clock <= now
      modifies this`mail
      ensures Inv(v, mail) && mail.listings == map[] && mail.clock == now
      ensures ok <==> reply == Accepted
      ensures mail.outbox.events ==
        old(mail).outbox.events[e := Handled(old(mail).outbox.events[e], reply, now, base)]
      ensures e in mail.outbox.events && var before, after := old(mail).outbox.events[e], mail.outbox.events[e];
        && after.item == before.item && after.tag == before.tag && after.tries == before.tries + 1
        && (after.published <==> reply == Accepted)
        && after.ready == (if reply == Accepted then before.ready else Due(now, base, before.tries + 1))
      ensures mail.messages ==
        if reply == Refused then old(mail).messages
        else var event := old(mail).outbox.events[e];
             old(mail).messages[old(mail).nextMessage := Message(event.item, event.tag, now)]
      ensures Kept(old(mail).messages, mail.messages)
    {
      hide Inv, Due, RetryDelay;
      EventNumbers(v, mail);
      DueIsDelay(now, base, mail.outbox.events[e].tries + 1);
      MailKeepsInv(v, base, mail, ListReady(0, e));
      mail := MailApply(base, mail, ListReady(0, e));
      MailKeepsInv(v, base, mail, Tick(now));
      mail := MailApply(base, mail, Tick(now));
      if reply != Refused {
        MailKeepsInv(v, base, mail, Enqueue(0));
        mail := MailApply(base, mail, Enqueue(0));
      }
      ok := reply == Accepted;
      var mark := if ok then MarkPublished(0) else MarkFailed(0);
      MailKeepsInv(v, base, mail, mark);
      mail := MailApply(base, mail, mark);
      assert mail.listings == map[];
    }

    /**
      Enqueue, then mark: each event of the batch is published with its message in the queue, or put
      off by its backoff. Whatever the queue answers, no wake-up is lost.
    */
    method DispatchOnce(limit: nat, replies: seq<Reply>, times: seq<Time>, ghost v: Views)
      returns (published: nat, batch: seq<nat>)
      requires base >= 0.0 && Inv(v, mail) && mail.listings == map[]
      requires |replies| >= limit && |times| >= limit && Readings(times, mail.clock)
      modifies this`mail
      ensures Inv(v, mail) && mail.listings == map[]
      ensures |batch| <= limit && published == AcceptedCount(replies[..|batch|])
      ensures forall e :: Ready(old(mail), e) && e !in batch ==> |batch| == limit
      ensures forall i, k :: 0 <= i < k < |batch| ==> batch[i] < batch[k]
      ensures Kept(old(mail).messages, mail.messages)
      ensures mail.outbox.events.Keys == old(mail).outbox.events.Keys
      ensures forall k :: 0 <= k < |batch| ==>
        && Ready(old(mail), batch[k])
        && mail.outbox.events[batch[k]] ==
             Handled(old(mail).outbox.events[batch[k]], replies[k], times[k], base)
        && (replies[k] != Refused ==> Queued(old(mail).outbox.events, mail.messages, batch[k]))
      ensures forall e :: e in mail.outbox.events && e !in batch ==>
        mail.outbox.events[e] == old(mail).outbox.events[e]
    {
      hide Inv, Handled, PartlyHandled, AcceptedCount, Queued;
      EventNumbers(v, mail);
      batch := ReadyOutbox(limit);
      published := 0;
      ghost var events := mail.outbox.events;
      NothingHandled(events, batch, replies, times, base);
      for k := 0 to |batch|
        invariant Inv(v, mail) && mail.listings == map[] && old(mail).clock <= mail.clock
        invariant forall i :: k <= i < |times| ==> mail.clock <= times[i]
        invariant published == AcceptedCount(replies[..k])
        invariant forall i :: 0 <= i < k && replies[i] != Refused ==> Queued(events, mail.messages, batch[i])
        invariant Kept(old(mail).messages, mail.messages)
        invariant PartlyHandled(events, mail.outbox.events, batch, replies, times, k, base)
      {
        HandledNext(events, mail.outbox.events, batch, replies, times, k, base);
        CountNext(replies, k);
        ghost var queue := mail.messages;
        ghost var number := mail.nextMessage;
        var ok := HandleOne(batch[k], replies[k], times[k], v);
        QueueGrows(events, queue, mail.messages);
        if replies[k] != Refused {
          Enqueued(events, mail.messages, batch[k], number);
        }
        if ok {
          published := published + 1;
        }
      }
      AllHandled(events, mail.outbox.events, batch, replies, times, base);
    }
  }

  /** The first k events of the batch are handled and all others are as they were. */
  predicate PartlyHandled(before: map<nat, Event>, after: map<nat, Event>, batch: seq<nat>,
                          replies: seq<Reply>, times: seq<Time>, k: nat, base: real)
    requires k <= |batch| <= |replies| && |batch| <= |times|
  {
    && after.Keys == before.Keys
    && (forall i :: 0 <= i < k ==> batch[i] in before
                                   && after[batch[i]] == Handled(before[batch[i]], replies[i], times[i], base))
    && (forall e :: e in before && e !in batch[..k] ==> after[e] == before[e])
  }

  lemma NothingHandled(events: map<nat, Event>, batch: seq<nat>, replies: seq<Reply>, times: seq<Time>, base: real)
    requires |batch| <= |replies| && |batch| <= |times|
    ensures PartlyHandled(events, events, batch, replies, times, 0, base)
    ensures AcceptedCount(replies[..0]) == 0
  {
  }

  lemma HandledNext(before: map<nat, Event>, now: map<nat, Event>, batch: seq<nat>,
                    replies: seq<Reply>, times: seq<Time>, k: nat, base: real)
    requires k < |batch| <= |replies| && |batch| <= |times| && batch[k] in before
    requires forall i, j :: 0 <= i < j < |batch| ==> batch[i] < batch[j]
    requires PartlyHandled(before, now, batch, replies, times, k, base)
    ensures batch[k] in now && now[batch[k]] == before[batch[k]]
    ensures PartlyHandled(before, now[batch[k] := Handled(now[batch[k]], replies[k], times[k], base)],
                          batch, replies, times, k + 1, base)
  {
    hide Handled;
    assert batch[..k + 1] == batch[..k] + [batch[k]];
    assert batch[k] !in batch[..k];
  }

  lemma CountNext(replies: seq<Reply>, k: nat)
    requires k < |replies|
    ensures AcceptedCount(replies[..k + 1]) ==
      AcceptedCount(replies[..k]) + (if replies[k] == Accepted then 1 else 0)
  {
    assert replies[..k + 1][..k] == replies[..k];
  }

  lemma AllHandled(before: map<nat, Event>, after: map<nat, Event>, batch: seq<nat>,
                   replies: seq<Reply>, times: seq<Time>, base: real)
    requires |batch| <= |replies| && |batch| <= |times|
    requires PartlyHandled(before, after, batch, replies, times, |batch|, base)
    ensures after.Keys == before.Keys
    ensures forall k :: 0 <= k < |batch| ==>
      batch[k] in before && after[batch[k]] == Handled(before[batch[k]], replies[k], times[k], base)
    ensures forall e :: e in before && e !in batch ==> after[e] == before[e]
  {
    assert batch[..|batch|] == batch;
  }

  lemma EventNumbers(v: Views, m: Mail)
    requires Inv(v, m)
    ensures forall e :: e in m.outbox.events ==> e < m.outbox.next
    ensures m.nextMessage !in m.messages
  {
  }
}
