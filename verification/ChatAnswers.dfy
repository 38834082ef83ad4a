/**
  What a save under a client message id answers, exactly when: the id is an idempotency key, so it is confirmed only to
  the payload it stands for, over every run of saves.
*/
module ChatAnswers {
  import opened Wrappers
  import opened ChatRevisions

  /** A missing or zero revision counts as the first. */
  function Number(revision: Option<nat>): nat {
    if revision.Some? && revision.value > 0 then revision.value else 1
  }

  /** The delivery claims to be another message than the stored one. */
  ghost predicate OtherMessage(m: Message, who: Identity) {
    m.sender != who.sender || m.app != who.app || m.source != who.source || (who.session.Some? && who.session.value != m.session)
  }

  /** The delivery repeats the stored number, or has none, and so must repeat the stored payload. */
  ghost predicate MustRepeat(m: Message, d: Delivery) {
    d.revision.None? || d.revision.value == Number(m.revision)
  }

  /**
    One save, every case: an unknown id is created; another message's id, and a different payload where the stored one
    must be repeated, are conflicts; an older revision and an exact repeat are confirmed; a later revision is stored. A
    conflict and a confirmation change nothing.
  */
  lemma SaveAnswers(j: Journal, d: Delivery, acquired: string, alive: bool)
    ensures var (k, reply) := Save(j, d, acquired, alive);
            if j.message.None? then
              && reply == Saved(true, false, d.revision) && k.counted == j.counted + (if alive then 1 else 0)
              && k.message == Some(Message(d.who.sender, d.who.app, if d.who.session.Some? then d.who.session.value else acquired, d.who.source,
                                           d.payload.text, d.payload.metadata, d.payload.blocks, Digest(d.who, d.payload), d.revision))
            else
              var m := j.message.value;
              && (reply == PayloadConflict <==> OtherMessage(m, d.who) || (MustRepeat(m, d) && m.digest != Digest(d.who, d.payload)))
              && (k != j ==> reply == Saved(false, true, d.revision))
              && (reply != PayloadConflict ==>
                    if d.revision.Some? && d.revision.value > Number(m.revision) then
                      && reply == Saved(false, true, d.revision) && k.counted == j.counted
                      && k.message == Some(m.(text := d.payload.text, metadata := d.payload.metadata, digest := Digest(d.who, d.payload),
                                              revision := d.revision,
                                              blocks := if d.payload.blocks.Some? then d.payload.blocks else m.blocks))
                    else k == j && reply == Saved(false, false, m.revision))
  {
  }

  // ----- runs of arbitrary saves under one id -----

  datatype Call = Call(delivery: Delivery, acquired: string, alive: bool)

  function CallAnswer(j: Journal, c: Call): (Journal, Reply) { Save(j, c.delivery, c.acquired, c.alive) }

  function Run(j: Journal, calls: seq<Call>): Journal
    decreases |calls|
  {
    if calls == [] then j else Run(CallAnswer(j, calls[0]).0, calls[1..])
  }

  /** The last save that created or updated the message, starting from `last`. */
  function LastAccepted(j: Journal, calls: seq<Call>, last: Option<Delivery>): Option<Delivery>
    decreases |calls|
  {
    if calls == [] then last
    else
      var (k, reply) := CallAnswer(j, calls[0]);
      LastAccepted(k, calls[1..], if reply.Saved? && (reply.created || reply.updated) then Some(calls[0].delivery) else last)
  }

  /** What is stored is the last accepted delivery, blocks aside, of a message with that identity. */
  ghost predicate Stands(j: Journal, last: Option<Delivery>) {
    && (j.message.Some? <==> last.Some?)
    && (last.Some? ==>
          var m, d := j.message.value, last.value;
          && m.text == d.payload.text && m.metadata == d.payload.metadata && m.revision == d.revision
          && m.digest == Digest(d.who, d.payload)
          && m.sender == d.who.sender && m.app == d.who.app && m.source == d.who.source
          && (d.who.session.Some? ==> m.session == d.who.session.value))
  }

  lemma CallKeepsStanding(j: Journal, c: Call, last: Option<Delivery>)
    requires Stands(j, last)
    ensures var (k, reply) := CallAnswer(j, c);
            Stands(k, if reply.Saved? && (reply.created || reply.updated) then Some(c.delivery) else last)
  {
    SaveAnswers(j, c.delivery, c.acquired, c.alive);
  }

  lemma {:induction false} RunKeepsStanding(j: Journal, calls: seq<Call>, last: Option<Delivery>)
    requires Stands(j, last)
    ensures Stands(Run(j, calls), LastAccepted(j, calls, last))
    decreases |calls|
  {
    if calls != [] {
      var (k, reply) := CallAnswer(j, calls[0]);
      CallKeepsStanding(j, calls[0], last);
      RunKeepsStanding(k, calls[1..], if reply.Saved? && (reply.created || reply.updated) then Some(calls[0].delivery) else last);
    }
  }

  /**
    After any saves at all under one id, the next one is refused exactly if it claims another identity than the last
    accepted save, or another session than the message is in, or has to repeat that save and does not. A refusal
    changes nothing.
  */
  lemma ConflictExactlyWhen(counted: nat, calls: seq<Call>, d: Delivery, acquired: string, alive: bool)
    requires calls != []
    ensures var j := Run(Journal(None, counted), calls);
            var last := LastAccepted(Journal(None, counted), calls, None);
            var (k, reply) := Save(j, d, acquired, alive);
            && last.Some? && j.message.Some?
            && (reply == PayloadConflict <==>
                  || d.who.sender != last.value.who.sender || d.who.app != last.value.who.app || d.who.source != last.value.who.source
                  || (d.who.session.Some? && d.who.session.value != j.message.value.session)
                  || ((d.revision.None? || d.revision.value == Number(last.value.revision))
                      && (d.who != last.value.who || d.payload != last.value.payload)))
            && (reply == PayloadConflict ==> k == j)
  {
    var start := Journal(None, counted);
    RunKeepsStanding(start, calls, None);
    FirstIsAccepted(start, calls);
    SaveAnswers(Run(start, calls), d, acquired, alive);
  }

  lemma {:induction false} StaysAccepted(j: Journal, calls: seq<Call>, last: Option<Delivery>)
    requires last.Some?
    ensures LastAccepted(j, calls, last).Some?
    decreases |calls|
  {
    if calls != [] {
      var (k, reply) := CallAnswer(j, calls[0]);
      StaysAccepted(k, calls[1..], if reply.Saved? && (reply.created || reply.updated) then Some(calls[0].delivery) else last);
    }
  }

  lemma FirstIsAccepted(j: Journal, calls: seq<Call>)
    requires j.message.None? && calls != []
    ensures LastAccepted(j, calls, None).Some?
  {
    SaveAnswers(j, calls[0].delivery, calls[0].acquired, calls[0].alive);
    StaysAccepted(CallAnswer(j, calls[0]).0, calls[1..], Some(calls[0].delivery));
  }

  /** A save without a revision under a known id is confirmed exactly when it repeats the last accepted one, author and payload. */
  lemma RetryConfirmedIffRepeat(counted: nat, calls: seq<Call>, d: Delivery, acquired: string, alive: bool)
    requires calls != [] && d.revision.None?
    ensures var j := Run(Journal(None, counted), calls);
            var last := LastAccepted(Journal(None, counted), calls, None);
            && last.Some?
            && (Save(j, d, acquired, alive) == (j, Saved(false, false, last.value.revision)) <==>
                  d.who == last.value.who && d.payload == last.value.payload)
            && (!(d.who == last.value.who && d.payload == last.value.payload) ==> Save(j, d, acquired, alive) == (j, PayloadConflict))
  {
    var start := Journal(None, counted);
    RunKeepsStanding(start, calls, None);
    FirstIsAccepted(start, calls);
    SaveAnswers(Run(start, calls), d, acquired, alive);
  }
}
