/**
  Saving one chat message under a client id (backend/database/chat.py, `save_message`): creation, idempotent
  retries and monotone journal revisions of one document.
*/
module ChatRevisions {
  import opened Wrappers

  /** What identifies the message: sender, app, the session the caller asked for, and the source. */
  datatype Identity = Identity(sender: string, app: Option<string>, session: Option<string>, source: string)

  datatype Payload = Payload(text: string, metadata: Option<string>, blocks: Option<string>)

  datatype Delivery = Delivery(who: Identity, payload: Payload, revision: Option<nat>)

  /** The digest covers the caller's whole payload and identity. */
  datatype Digest = Digest(who: Identity, payload: Payload)

  datatype Message = Message(
    sender: string, app: Option<string>, session: string, source: string,
    text: string, metadata: Option<string>, blocks: Option<string>, digest: Digest, revision: Option<nat>)

  /** The document under the client id, and the message count of its session. */
  datatype Journal = Journal(message: Option<Message>, counted: nat)

  datatype Reply = Saved(created: bool, updated: bool, revision: Option<nat>) | PayloadConflict

  /** The session a message without one is put into. */
  function SessionFor(who: Identity, acquired: string): string {
    if who.session.Some? then who.session.value else acquired
  }

  function NewMessage(d: Delivery, acquired: string): Message {
    Message(d.who.sender, d.who.app, SessionFor(d.who, acquired), d.who.source,
            d.payload.text, d.payload.metadata, d.payload.blocks, Digest(d.who, d.payload), d.revision)
  }

  predicate SameIdentity(m: Message, who: Identity) {
    && m.sender == who.sender && m.source == who.source && m.app == who.app
    && (who.session.Some? ==> m.session == who.session.value)
  }

  function StoredRevision(m: Message): nat {
    if m.revision.None? || m.revision.value == 0 then 1 else m.revision.value
  }

  /** A later revision replaces text, metadata and digest; the blocks only when it carries some. */
  function Revised(m: Message, d: Delivery): Message {
    m.(text := d.payload.text, metadata := d.payload.metadata, digest := Digest(d.who, d.payload), revision := d.revision,
       blocks := if d.payload.blocks.Some? then d.payload.blocks else m.blocks)
  }

  /** One save under the client id; `acquired` and `sessionAlive` are what the session store answers. */
  function Save(j: Journal, d: Delivery, acquired: string, sessionAlive: bool): (Journal, Reply) {
    if j.message.None? then
      (Journal(Some(NewMessage(d, acquired)), if sessionAlive then j.counted + 1 else j.counted), Saved(true, false, d.revision))
    else
      var m := j.message.value;
      if !SameIdentity(m, d.who) then (j, PayloadConflict)
      else if d.revision.Some? && d.revision.value < StoredRevision(m) then (j, Saved(false, false, m.revision))
      else if d.revision.None? || d.revision.value == StoredRevision(m) then
        if m.digest != Digest(d.who, d.payload) then (j, PayloadConflict) else (j, Saved(false, false, m.revision))
      else (j.(message := Some(Revised(m, d))), Saved(false, true, d.revision))
  }

  function Deliver(j: Journal, ds: seq<Delivery>, acquired: string): Journal
    decreases |ds|
  {
    if ds == [] then j else Deliver(Save(j, ds[0], acquired, true).0, ds[1..], acquired)
  }

  // ----- deliveries whose payload is a function of the revision -----

  predicate Numbered(d: Delivery) { d.revision.Some? && d.revision.value >= 1 }

  predicate Later(d: Delivery, e: Delivery)
    requires Numbered(d) && Numbered(e)
  {
    d.revision.value > e.revision.value
  }

  /** All deliveries come from one author, are numbered from one, and equal numbers mean equal payloads. */
  ghost predicate Consistent(ds: seq<Delivery>) {
    && (forall d | d in ds :: Numbered(d))
    && (forall d, e | d in ds && e in ds :: d.who == e.who && (d.revision == e.revision ==> d == e))
  }

  ghost predicate Greatest(ds: seq<Delivery>, top: Delivery)
    requires Consistent(ds)
  {
    top in ds && forall d | d in ds :: !Later(d, top)
  }

  lemma SubsetConsistent(ds: seq<Delivery>, es: seq<Delivery>)
    requires Consistent(ds) && forall d | d in es :: d in ds
    ensures Consistent(es)
  {
  }

  /** The message shows exactly this delivery, blocks aside. */
  ghost predicate Shows(m: Message, d: Delivery, acquired: string) {
    && m.text == d.payload.text && m.metadata == d.payload.metadata && m.digest == Digest(d.who, d.payload) && m.revision == d.revision
    && m.sender == d.who.sender && m.app == d.who.app && m.source == d.who.source && m.session == SessionFor(d.who, acquired)
  }

  ghost predicate Tracks(j: Journal, top: Delivery, acquired: string) {
    j.message.Some? && Numbered(top) && Shows(j.message.value, top, acquired)
  }

  function LaterOf(top: Delivery, d: Delivery): Delivery
    requires Numbered(top) && Numbered(d)
  {
    if Later(d, top) then d else top
  }

  /** Saving keeps the greater of the stored delivery and the new one, and only a greater one brings its blocks. */
  lemma SaveKeepsGreater(j: Journal, top: Delivery, d: Delivery, acquired: string)
    requires Tracks(j, top, acquired) && d.who == top.who && Numbered(d)
    requires d.revision == top.revision ==> d == top
    ensures var (t, reply) := Save(j, d, acquired, true);
            && Tracks(t, LaterOf(top, d), acquired)
            && t.counted == j.counted
            && t.message.value.blocks == (if Later(d, top) && d.payload.blocks.Some? then d.payload.blocks else j.message.value.blocks)
            && (t == j || Later(d, top))
            && reply == Saved(false, Later(d, top), LaterOf(top, d).revision)
  {
  }

  /** The step of every induction below: what is stored and what is still to come. */
  lemma NextIsConsistent(top: Delivery, ds: seq<Delivery>)
    requires ds != [] && Consistent([top] + ds)
    ensures Numbered(top) && Numbered(ds[0]) && ds[0].who == top.who && (ds[0].revision == top.revision ==> ds[0] == top)
    ensures Consistent([LaterOf(top, ds[0])] + ds[1..])
    ensures forall x | x in [LaterOf(top, ds[0])] + ds[1..] :: x in [top] + ds
    ensures forall x | x in [top] + ds :: x == top || x == ds[0] || x in [LaterOf(top, ds[0])] + ds[1..]
  {
    assert top in [top] + ds && ds[0] in [top] + ds;
    SubsetConsistent([top] + ds, [LaterOf(top, ds[0])] + ds[1..]);
  }

  /** The greatest delivery is never dropped. */
  lemma GreatestSurvives(top: Delivery, ds: seq<Delivery>, last: Delivery)
    requires ds != [] && Consistent([top] + ds) && Greatest([top] + ds, last)
    ensures Numbered(top) && Numbered(ds[0])
    ensures Consistent([LaterOf(top, ds[0])] + ds[1..]) && Greatest([LaterOf(top, ds[0])] + ds[1..], last)
  {
    NextIsConsistent(top, ds);
    assert top in [top] + ds && ds[0] in [top] + ds;
    assert LaterOf(top, ds[0]) in [LaterOf(top, ds[0])] + ds[1..];
  }

  lemma {:induction false} DeliverKeepsGreatest(j: Journal, top: Delivery, ds: seq<Delivery>, acquired: string, last: Delivery)
    requires Tracks(j, top, acquired) && Consistent([top] + ds) && Greatest([top] + ds, last)
    ensures Tracks(Deliver(j, ds, acquired), last, acquired) && Deliver(j, ds, acquired).counted == j.counted
    decreases |ds|
  {
    if ds == [] {
      assert last == top;
    } else {
      NextIsConsistent(top, ds);
      GreatestSurvives(top, ds, last);
      SaveKeepsGreater(j, top, ds[0], acquired);
      DeliverKeepsGreatest(Save(j, ds[0], acquired, true).0, LaterOf(top, ds[0]), ds[1..], acquired, last);
    }
  }

  /**
    Whatever the order and repetition of the deliveries, the document ends with the text, metadata, digest and
    revision of the greatest one delivered, and the session counts the message once.
  */
  lemma RevisionsConverge(counted: nat, ds: seq<Delivery>, last: Delivery, acquired: string)
    requires ds != [] && Consistent(ds) && Greatest(ds, last)
    ensures var j := Deliver(Journal(None, counted), ds, acquired);
            j.message.Some? && Shows(j.message.value, last, acquired) && j.counted == counted + 1
  {
    assert ds == [ds[0]] + ds[1..];
    DeliverKeepsGreatest(Save(Journal(None, counted), ds[0], acquired, true).0, ds[0], ds[1..], acquired, last);
  }

  // ----- content blocks -----

  /** Deliveries that are not later than what is stored change nothing at all. */
  lemma {:induction false} StaleDeliveriesAreIgnored(j: Journal, top: Delivery, ds: seq<Delivery>, acquired: string)
    requires Tracks(j, top, acquired) && Consistent([top] + ds) && Greatest([top] + ds, top)
    ensures Deliver(j, ds, acquired) == j
    decreases |ds|
  {
    if ds != [] {
      NextIsConsistent(top, ds);
      GreatestSurvives(top, ds, top);
      SaveKeepsGreater(j, top, ds[0], acquired);
      assert ds[0] in [top] + ds;
      StaleDeliveriesAreIgnored(j, top, ds[1..], acquired);
    }
  }

  /** The greatest revision carries blocks, or no delivery does. */
  ghost predicate BlocksSettled(ds: seq<Delivery>, last: Delivery) {
    last.payload.blocks.Some? || forall d | d in ds :: d.payload.blocks.None?
  }

  lemma {:induction false} BlocksFollow(j: Journal, top: Delivery, ds: seq<Delivery>, acquired: string, last: Delivery)
    requires Tracks(j, top, acquired) && Consistent([top] + ds) && Greatest([top] + ds, last) && BlocksSettled([top] + ds, last)
    requires last.payload.blocks.None? || top == last ==> j.message.value.blocks == last.payload.blocks
    ensures var m := Deliver(j, ds, acquired).message; m.Some? && m.value.blocks == last.payload.blocks
    decreases |ds|
  {
    if ds == [] {
      assert last == top;
    } else {
      NextIsConsistent(top, ds);
      GreatestSurvives(top, ds, last);
      SaveKeepsGreater(j, top, ds[0], acquired);
      assert top in [top] + ds && ds[0] in [top] + ds;
      BlocksFollow(Save(j, ds[0], acquired, true).0, LaterOf(top, ds[0]), ds[1..], acquired, last);
    }
  }

  /** When the greatest revision carries blocks, or none does, the blocks do not depend on the order either. */
  lemma BlocksConverge(counted: nat, ds: seq<Delivery>, last: Delivery, acquired: string)
    requires ds != [] && Consistent(ds) && Greatest(ds, last) && BlocksSettled(ds, last)
    ensures Deliver(Journal(None, counted), ds, acquired).message.Some?
    ensures Deliver(Journal(None, counted), ds, acquired).message.value.blocks == last.payload.blocks
  {
    assert ds == [ds[0]] + ds[1..];
    BlocksFollow(Save(Journal(None, counted), ds[0], acquired, true).0, ds[0], ds[1..], acquired, last);
  }

  /** Take one delivery out of a sequence. */
  lemma TakeOut(ds: seq<Delivery>, d: Delivery) returns (rest: seq<Delivery>)
    requires d in ds
    ensures multiset([d] + rest) == multiset(ds)
    ensures forall x :: x in ds <==> x == d || x in rest
  {
    var i :| 0 <= i < |ds| && ds[i] == d;
    rest := ds[..i] + ds[i + 1..];
    assert ds == ds[..i] + [d] + ds[i + 1..];
    forall x ensures x in ds <==> x == d || x in rest {
      assert x in ds <==> x in ds[..i] || x == d || x in ds[i + 1..];
    }
  }

  /** Only the greatest first: no blocks are ever stored. */
  lemma GreatestFirst(counted: nat, rest: seq<Delivery>, last: Delivery, acquired: string)
    requires Consistent([last] + rest) && Greatest([last] + rest, last)
    ensures Deliver(Journal(None, counted), [last] + rest, acquired).message == Some(NewMessage(last, acquired))
  {
    var j := Save(Journal(None, counted), last, acquired, true).0;
    assert ([last] + rest)[1..] == rest;
    StaleDeliveriesAreIgnored(j, last, rest, acquired);
  }

  /** An earlier delivery with blocks first, then the greatest without: the earlier blocks stay. */
  lemma EarlierFirst(counted: nat, early: Delivery, rest: seq<Delivery>, last: Delivery, acquired: string)
    requires Consistent([early] + ([last] + rest)) && Greatest([early] + ([last] + rest), last)
    requires early.payload.blocks.Some? && last.payload.blocks.None?
    ensures var m := Deliver(Journal(None, counted), [early] + ([last] + rest), acquired).message;
            m.Some? && m.value.blocks == early.payload.blocks
  {
    var ds := [early] + ([last] + rest);
    var j := Save(Journal(None, counted), early, acquired, true).0;
    assert ds[1..] == [last] + rest && ([last] + rest)[1..] == rest && early in ds && last in ds;
    SaveKeepsGreater(j, early, last, acquired);
    SubsetConsistent(ds, [last] + rest);
    StaleDeliveriesAreIgnored(Save(j, last, acquired, true).0, last, rest, acquired);
  }

  /**
    Otherwise they do depend on it: the same deliveries in two orders leave different blocks. With
    `BlocksConverge`, the blocks are independent of the order exactly when they are settled.
  */
  lemma BlocksDivergeUnlessSettled(counted: nat, ds: seq<Delivery>, last: Delivery, acquired: string)
    returns (one: seq<Delivery>, other: seq<Delivery>)
    requires Consistent(ds) && Greatest(ds, last) && !BlocksSettled(ds, last)
    ensures multiset(one) == multiset(ds) && multiset(other) == multiset(ds)
    ensures var a, b := Deliver(Journal(None, counted), one, acquired).message, Deliver(Journal(None, counted), other, acquired).message;
            a.Some? && b.Some? && a.value.blocks != b.value.blocks
  {
    var rest := TakeOut(ds, last);
    one := [last] + rest;
    SubsetConsistent(ds, one);
    GreatestFirst(counted, rest, last, acquired);
    var early :| early in ds && early.payload.blocks.Some?;
    var others := TakeOut(rest, early);
    other := [early] + ([last] + others);
    SubsetConsistent(ds, other);
    assert last in other;
    EarlierFirst(counted, early, others, last, acquired);
    assert multiset(one) == multiset{last} + multiset(rest) && multiset(rest) == multiset([early] + others);
    SwapFront(last, early, others);
  }

  lemma SwapFront(a: Delivery, b: Delivery, rest: seq<Delivery>)
    ensures multiset([a] + ([b] + rest)) == multiset([b] + ([a] + rest))
  {
  }

  // ----- the journal as it runs -----

  function Stored(messages: map<string, Message>, id: string): Journal {
    Journal(Lookup(messages, id), 0)
  }

  class ChatJournal {
    var messages: map<string, Message>
    var counts: map<string, nat>   // message_count of each live session

    constructor (sessions: set<string>)
      ensures messages == map[] && counts == map s | s in sessions :: 0
    {
      messages, counts := map[], map s | s in sessions :: 0;
    }

    /** Arbitrate a save against the stored document; the caller has found one. */
    method ApplyExistingRevision(id: string, d: Delivery) returns (reply: Reply)
      requires id in messages
      modifies this`messages
      ensures forall acquired :: (Stored(messages, id), reply) == Save(Stored(old(messages), id), d, acquired, true)
      ensures messages == old(messages)[id := messages[id]]
    {
      var existing := messages[id];
      assert messages == messages[id := existing];
      if !SameIdentity(existing, d.who) { return PayloadConflict; }
      var stored := StoredRevision(existing);
      if d.revision.Some? {
        if d.revision.value < stored { return Saved(false, false, existing.revision); }
        if d.revision.value > stored {
          messages := messages[id := Revised(existing, d)];
          return Saved(false, true, d.revision);
        }
      }
      if existing.digest != Digest(d.who, d.payload) { return PayloadConflict; }
      return Saved(false, false, existing.revision);
    }

    /** Only the creating save counts in the session, and only while that session exists. */
    method SaveMessage(id: string, d: Delivery, acquired: string) returns (reply: Reply)
      modifies this
      ensures (Stored(messages, id).message, reply) ==
                (Save(Stored(old(messages), id), d, acquired, true).0.message, Save(Stored(old(messages), id), d, acquired, true).1)
      ensures id in messages && messages == old(messages)[id := messages[id]]
      ensures var session := SessionFor(d.who, acquired);
              counts == if id !in old(messages) && session in old(counts) then old(counts)[session := old(counts)[session] + 1]
                        else old(counts)
    {
      if id in messages {
        reply := ApplyExistingRevision(id, d);
        return;
      }
      messages := messages[id := NewMessage(d, acquired)];
      var session := SessionFor(d.who, acquired);
      if session in counts { counts := counts[session := counts[session] + 1]; }
      return Saved(true, false, d.revision);
    }
  }
}
