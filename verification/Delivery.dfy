/**
  Transactional outbox plus at-least-once queue, shared by evaluation jobs and benchmark samples.

  A store row is seen here only through its `View`: how many attempts were started, and whether it
  waits for a claim, is being worked on, or is finished. Each outbox event carries the attempt count
  its row had when the event was written, and the message made from it carries the same number. No
  guard reads that tag; it exists to say which wake-up a message stands for.
*/
module Delivery {
  import opened Core
  import opened Retry

  /** A row may be claimed before `notBefore` only when it has none. */
  datatype Phase = Waiting(notBefore: Option<Time>) | Active | Done
  datatype View = View(attempts: nat, phase: Phase)
  type Views = map<Id, View>

  datatype Event = Event(item: Id, tag: nat, ready: Time, tries: nat, published: bool)
  datatype Outbox = Outbox(events: map<nat, Event>, next: nat)
  datatype Message = Message(item: Id, tag: nat, enqueuedAt: Time)

  /** One event of a publisher's batch, between `ready_outbox` and its mark. */
  datatype Listing = Listing(event: nat, listedAt: Time, enqueued: bool)

  /** The message a worker is processing; `settled` once the worker has decided to acknowledge it. */
  datatype Hold = Hold(id: nat, message: Message, settled: bool)

  datatype Mail = Mail(
    clock: Time,
    outbox: Outbox,
    messages: map<nat, Message>,  // delivered or not, but not acknowledged
    nextMessage: nat,
    listings: map<nat, Listing>,
    held: map<WorkerId, Hold>
  )

  function EmptyMail(clock: Time): Mail {
    Mail(clock, Outbox(map[], 0), map[], 0, map[], map[])
  }

  function AddEvent(outbox: Outbox, item: Id, tag: nat, ready: Time): Outbox {
    Outbox(outbox.events[outbox.next := Event(item, tag, ready, 0, false)], outbox.next + 1)
  }

  // ----- Steps of publishers, queue and clock; none of them touches a row -----

  datatype MailStep =
    | Tick(to: Time)
    | ListReady(listing: nat, event: nat)
    | Enqueue(listing: nat)
    | MarkPublished(listing: nat)
    | MarkFailed(listing: nat)
    | DropListing(listing: nat)
    | Deliver(worker: WorkerId, message: nat)
    | Acknowledge(worker: WorkerId)
    | Drop(worker: WorkerId)

  predicate MailEnabled(m: Mail, step: MailStep) {
    match step
    case Tick(to) => m.clock <= to
    case ListReady(l, e) =>
      && l !in m.listings
      && e in m.outbox.events
      && !m.outbox.events[e].published
      && m.outbox.events[e].ready <= m.clock
    case Enqueue(l) => l in m.listings && m.listings[l].event in m.outbox.events
    case MarkPublished(l) =>
      l in m.listings && m.listings[l].event in m.outbox.events && m.listings[l].enqueued
    case MarkFailed(l) => l in m.listings && m.listings[l].event in m.outbox.events
    case DropListing(l) => l in m.listings
    case Deliver(w, id) => w !in m.held && id in m.messages
    case Acknowledge(w) => w in m.held && m.held[w].settled
    case Drop(w) => w in m.held
  }

  /**
    `mark_outbox_published` and `mark_outbox_failed` leave an event that is already published alone.
    An enqueue whose reply is lost is `Enqueue` followed by `MarkFailed`; a publisher that dies is
    `DropListing`, and one that dies after enqueuing leaves a duplicate for the next batch.
  */
  function MailApply(base: real, m: Mail, step: MailStep): (r: Mail)
    requires MailEnabled(m, step)
  {
    match step
    case Tick(to) => m.(clock := to)
    case ListReady(l, e) => m.(listings := m.listings[l := Listing(e, m.clock, false)])
    case Enqueue(l) =>
      var event := m.outbox.events[m.listings[l].event];
      m.(messages := m.messages[m.nextMessage := Message(event.item, event.tag, m.clock)],
         nextMessage := m.nextMessage + 1,
         listings := m.listings[l := m.listings[l].(enqueued := true)])
    case MarkPublished(l) =>
      m.(outbox := MarkedPublished(m.outbox, m.listings[l].event), listings := m.listings - {l})
    case MarkFailed(l) =>
      m.(outbox := MarkedFailed(m.outbox, m.listings[l].event, m.clock, base),
         listings := m.listings - {l})
    case DropListing(l) => m.(listings := m.listings - {l})
    case Deliver(w, id) => m.(held := m.held[w := Hold(id, m.messages[id], false)])
    case Acknowledge(w) => m.(messages := m.messages - {m.held[w].id}, held := m.held - {w})
    case Drop(w) => m.(held := m.held - {w})
  }

  function MarkedPublished(outbox: Outbox, e: nat): Outbox
    requires e in outbox.events
  {
    var event := outbox.events[e];
    if event.published then outbox
    else outbox.(events := outbox.events[e := event.(published := true, tries := event.tries + 1)])
  }

  function MarkedFailed(outbox: Outbox, e: nat, now: Time, base: real): Outbox
    requires e in outbox.events
  {
    var event := outbox.events[e];
    if event.published then outbox
    else
      var tries := event.tries + 1;
      outbox.(events :=
        outbox.events[e := event.(tries := tries, ready := now + RetryDelay(tries, base))])
  }

  /** The worker has decided that its message needs no further processing. */
  function Settle(m: Mail, w: WorkerId): Mail
    requires w in m.held
  {
    m.(held := m.held[w := m.held[w].(settled := true)])
  }

  // ----- What every step keeps -----

  predicate Open(phase: Phase, at: Time) {
    phase.Waiting? && (phase.notBefore.Some? ==> phase.notBefore.value <= at)
  }

  /** A wake-up tagged `tag` and usable from `at` is not ahead of its row, nor early for it. */
  predicate Stamp(v: Views, item: Id, tag: nat, at: Time) {
    && item in v
    && tag <= v[item].attempts
    && (v[item].phase.Active? ==> tag < v[item].attempts)
    && (v[item].phase.Waiting? && tag == v[item].attempts ==> Open(v[item].phase, at))
  }

  /** The wake-up tagged `tag` has served its purpose. */
  predicate Past(v: Views, item: Id, tag: nat) {
    item in v && (v[item].attempts > tag || v[item].phase.Done?)
  }

  predicate HasEvent(outbox: Outbox, item: Id, tag: nat) {
    exists e :: e in outbox.events && outbox.events[e].item == item && outbox.events[e].tag == tag
  }

  predicate HasUnpublished(outbox: Outbox, item: Id, tag: nat) {
    exists e :: e in outbox.events && outbox.events[e].item == item && outbox.events[e].tag == tag
      && !outbox.events[e].published
  }

  predicate HasMessage(messages: map<nat, Message>, item: Id, tag: nat) {
    exists id :: id in messages && messages[id].item == item && messages[id].tag == tag
  }

  predicate Delivered(v: Views, messages: map<nat, Message>, item: Id, tag: nat) {
    Past(v, item, tag) || HasMessage(messages, item, tag)
  }

  predicate EventsOk(v: Views, m: Mail) {
    forall e :: e in m.outbox.events ==>
      var event := m.outbox.events[e];
      && e < m.outbox.next
      && Stamp(v, event.item, event.tag, event.ready)
      && (event.published ==> Delivered(v, m.messages, event.item, event.tag))
  }

  predicate ListingsOk(v: Views, m: Mail) {
    forall l :: l in m.listings ==>
      var listing := m.listings[l];
      && listing.event in m.outbox.events
      && listing.listedAt <= m.clock
      && var event := m.outbox.events[listing.event];
      && Stamp(v, event.item, event.tag, listing.listedAt)
      && (listing.enqueued ==> Delivered(v, m.messages, event.item, event.tag))
  }

  predicate MessageOk(v: Views, m: Mail, id: nat, message: Message) {
    && id < m.nextMessage
    && message.enqueuedAt <= m.clock
    && Stamp(v, message.item, message.tag, message.enqueuedAt)
  }

  predicate MessagesOk(v: Views, m: Mail) {
    forall id :: id in m.messages ==> MessageOk(v, m, id, m.messages[id])
  }

  predicate HeldOk(v: Views, m: Mail) {
    forall w :: w in m.held ==>
      var hold := m.held[w];
      && MessageOk(v, m, hold.id, hold.message)
      && (hold.id in m.messages ==> m.messages[hold.id] == hold.message)
      && (hold.settled ==> Past(v, hold.message.item, hold.message.tag))
  }

  predicate WaitingOk(v: Views, outbox: Outbox) {
    forall i :: i in v && v[i].phase.Waiting? ==> HasEvent(outbox, i, v[i].attempts)
  }

  predicate Inv(v: Views, m: Mail) {
    EventsOk(v, m) && ListingsOk(v, m) && MessagesOk(v, m) && HeldOk(v, m) && WaitingOk(v, m.outbox)
  }

  /** Every row that waits for a claim will be woken: an event to publish or a message to process. */
  predicate NoLostWork(v: Views, m: Mail) {
    forall i :: i in v && v[i].phase.Waiting? ==>
      || HasUnpublished(m.outbox, i, v[i].attempts)
      || HasMessage(m.messages, i, v[i].attempts)
  }

  lemma InvImpliesNoLostWork(v: Views, m: Mail)
    requires Inv(v, m)
    ensures NoLostWork(v, m)
  {
    forall i | i in v && v[i].phase.Waiting?
      ensures HasUnpublished(m.outbox, i, v[i].attempts) || HasMessage(m.messages, i, v[i].attempts)
    {
      assert HasEvent(m.outbox, i, v[i].attempts);
      var e :| e in m.outbox.events && m.outbox.events[e].item == i
            && m.outbox.events[e].tag == v[i].attempts;
      if m.outbox.events[e].published {
        assert Delivered(v, m.messages, i, v[i].attempts);
      }
    }
  }

  lemma MessageFor(mail: Mail, id: Id, tag: nat) returns (m: nat)
    requires HasMessage(mail.messages, id, tag)
    ensures m in mail.messages && mail.messages[m].item == id
  {
    m :| m in mail.messages && mail.messages[m].item == id && mail.messages[m].tag == tag;
  }

  lemma EventFor(mail: Mail, id: Id, tag: nat) returns (e: nat)
    requires HasUnpublished(mail.outbox, id, tag)
    ensures e in mail.outbox.events && mail.outbox.events[e].item == id && !mail.outbox.events[e].published
  {
    e :| e in mail.outbox.events && mail.outbox.events[e].item == id
      && mail.outbox.events[e].tag == tag && !mail.outbox.events[e].published;
  }

  // ----- Mail steps -----

  lemma MailKeepsInv(v: Views, base: real, m: Mail, step: MailStep)
    requires base >= 0.0 && Inv(v, m) && MailEnabled(m, step)
    ensures Inv(v, MailApply(base, m, step))
  {
    match step
    case Enqueue(l) => EnqueueKeepsInv(v, base, m, l);
    case MarkPublished(l) => MarkKeepsInv(v, base, m, step);
    case MarkFailed(l) => MarkKeepsInv(v, base, m, step);
    case Acknowledge(w) => AcknowledgeKeepsInv(v, base, m, w);
    case _ =>
  }

  lemma EnqueueKeepsInv(v: Views, base: real, m: Mail, l: nat)
    requires Inv(v, m) && MailEnabled(m, Enqueue(l))
    ensures Inv(v, MailApply(base, m, Enqueue(l)))
  {
    var m' := MailApply(base, m, Enqueue(l));
    MoreMessages(v, m.messages, m'.messages);
    var event := m.outbox.events[m.listings[l].event];
    assert m'.messages[m.nextMessage] == Message(event.item, event.tag, m.clock);
    assert HasMessage(m'.messages, event.item, event.tag);
    assert Stamp(v, event.item, event.tag, m.listings[l].listedAt);
  }

  lemma MoreMessages(v: Views, small: map<nat, Message>, large: map<nat, Message>)
    requires forall id :: id in small ==> id in large && large[id] == small[id]
    ensures forall item, tag :: Delivered(v, small, item, tag) ==> Delivered(v, large, item, tag)
  {
    forall item, tag | HasMessage(small, item, tag) ensures HasMessage(large, item, tag) {
      var id :| id in small && small[id].item == item && small[id].tag == tag;
      assert id in large && large[id] == small[id];
    }
  }

  lemma MarkKeepsInv(v: Views, base: real, m: Mail, step: MailStep)
    requires base >= 0.0 && Inv(v, m) && MailEnabled(m, step)
    requires step.MarkPublished? || step.MarkFailed?
    ensures Inv(v, MailApply(base, m, step))
  {
    var m' := MailApply(base, m, step);
    var l := step.listing;
    forall i | i in v && v[i].phase.Waiting? ensures HasEvent(m'.outbox, i, v[i].attempts) {
      assert HasEvent(m.outbox, i, v[i].attempts);
      var e :| e in m.outbox.events && m.outbox.events[e].item == i
            && m.outbox.events[e].tag == v[i].attempts;
      assert e in m'.outbox.events && m'.outbox.events[e].item == i
             && m'.outbox.events[e].tag == v[i].attempts;
    }
    var event := m.outbox.events[m.listings[l].event];
    assert Stamp(v, event.item, event.tag, m.listings[l].listedAt);
  }

  /** A settled message stands for a served wake-up, so removing it loses nothing. */
  lemma AcknowledgeKeepsInv(v: Views, base: real, m: Mail, w: WorkerId)
    requires Inv(v, m) && MailEnabled(m, Acknowledge(w))
    ensures Inv(v, MailApply(base, m, Acknowledge(w)))
  {
    var m' := MailApply(base, m, Acknowledge(w));
    var hold := m.held[w];
    forall item, tag | Delivered(v, m.messages, item, tag)
      ensures Delivered(v, m'.messages, item, tag)
    {
      if !Past(v, item, tag) {
        var id :| id in m.messages && m.messages[id].item == item && m.messages[id].tag == tag;
        assert id != hold.id;
        assert id in m'.messages && m'.messages[id] == m.messages[id];
      }
    }
  }

  // ----- Row steps -----

  /** What a claim, a failed attempt or a completion may do to one row. */
  predicate RowAdvances(a: View, b: View) {
    || a == b
    || (a.phase.Waiting? && b.phase.Active? && b.attempts == a.attempts + 1)
    || (a.phase.Active? && !b.phase.Active? && b.attempts == a.attempts)
  }

  predicate Advances(v: Views, v': Views) {
    forall i :: i in v ==> i in v' && RowAdvances(v[i], v'[i])
  }

  lemma AdvanceKeepsStamps(v: Views, v': Views)
    requires Advances(v, v')
    ensures forall item, tag, at :: Stamp(v, item, tag, at) ==> Stamp(v', item, tag, at)
    ensures forall item, tag :: Past(v, item, tag) ==> Past(v', item, tag)
  {
  }

  /** A transaction moves rows forward and writes one event for each row that starts to wait. */
  lemma TransactionKeepsInv(v: Views, m: Mail, v': Views, outbox': Outbox)
    requires Inv(v, m) && Advances(v, v')
    requires m.outbox.next <= outbox'.next
    requires forall e :: e in m.outbox.events ==>
      e in outbox'.events && outbox'.events[e] == m.outbox.events[e]
    requires forall e :: e in outbox'.events && e !in m.outbox.events ==>
      && e < outbox'.next
      && !outbox'.events[e].published
      && Stamp(v', outbox'.events[e].item, outbox'.events[e].tag, outbox'.events[e].ready)
    requires WaitingOk(v', outbox')
    ensures Inv(v', m.(outbox := outbox'))
  {
    AdvanceKeepsStamps(v, v');
  }

  lemma SettleKeepsInv(v: Views, m: Mail, w: WorkerId)
    requires Inv(v, m) && w in m.held
    requires Past(v, m.held[w].message.item, m.held[w].message.tag)
    ensures Inv(v, Settle(m, w))
  {
  }

  /** A row that is not claimable at `now` has outgrown the message that was used to look at it. */
  lemma RefusedMeansPast(v: Views, m: Mail, w: WorkerId, now: Time)
    requires Inv(v, m) && w in m.held && m.held[w].message.enqueuedAt <= now
    requires !Open(v[m.held[w].message.item].phase, now)
    ensures Past(v, m.held[w].message.item, m.held[w].message.tag)
  {
  }

  /** The repository's transactions change one row; one that makes it wait also writes its event. */
  lemma RowStepKeepsInv(v: Views, m: Mail, id: Id, next: View, ready: Time)
    requires Inv(v, m)
    requires if id in v then RowAdvances(v[id], next) && next != v[id] else next.phase.Waiting?
    requires next.phase.Waiting? ==> Open(next.phase, ready)
    ensures Inv(v[id := next],
                if next.phase.Waiting?
                then m.(outbox := AddEvent(m.outbox, id, next.attempts, ready))
                else m)
  {
    var v' := v[id := next];
    var outbox' := if next.phase.Waiting? then AddEvent(m.outbox, id, next.attempts, ready) else m.outbox;
    forall i | i in v' && v'[i].phase.Waiting? ensures HasEvent(outbox', i, v'[i].attempts) {
      if i == id {
        assert outbox'.events[m.outbox.next].item == i;
      } else {
        assert HasEvent(m.outbox, i, v[i].attempts);
        var e :| e in m.outbox.events && m.outbox.events[e].item == i
              && m.outbox.events[e].tag == v[i].attempts;
        assert e in outbox'.events && outbox'.events[e] == m.outbox.events[e];
      }
    }
    TransactionKeepsInv(v, m, v', outbox');
    assert m.(outbox := m.outbox) == m;
  }
}
