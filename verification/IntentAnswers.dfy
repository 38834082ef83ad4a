/** What each intent transaction answers and writes, exactly when, spelled out on the stored documents. */
module IntentAnswers {
  import opened Wrappers
  import opened IntentLife
  import opened IntentTransactions
  import opened IntentRuns

  /** Nothing changed except what is stored about `id`, which is now `l`. */
  ghost predicate Rewrites(s: Store, t: Store, id: IntentId, l: Life) {
    && t.generation == s.generation && t.deferrals == s.deferrals && Get(t, id) == l
    && forall x | x != id :: Get(t, x) == Get(s, x)
  }

  lemma PutRewrites(s: Store, id: IntentId, l: Life)
    ensures Rewrites(s, Put(s, id, l), id, l)
  {
    PutGet(s, id, l, id);
    forall x | x != id ensures Get(Put(s, id, l), x) == Get(s, x) { PutGet(s, id, l, x); }
  }

  /** Without an attempt document nothing was fetched, rejected, deferred or returned yet. */
  lemma CountersStartAtZero(l: Life)
    ensures Counters(l) == if l.attempt.Some? then l.attempt.value else Attempt(0, None, 0, 0, None, None, None, None)
  {
  }

  // ----- minting -----

  /**
    A fresh intent is stored exactly when neither an active document nor a dead letter has its id and its turn budget,
    if it needs one, is available; a known id is answered only to the same source and content.
  */
  lemma MintedExactlyWhen(s: Store, source: Source, continuity: string, content: Content, g: nat, budgetOk: bool, now: Time)
    ensures var (t, reply) := CreateTxn(s, source, continuity, content, g, budgetOk, now);
            var id := IntentId(g, KeyOf(source), continuity);
            var l := Get(s, id);
            if s.generation != g then t == s && reply == Err(GenerationMismatch)
            else if l.active.Some? then
              t == s && reply == if l.active.value.source == source && l.active.value.content == content then Ok((id, false)) else Err(Conflict)
            else if l.dead.Some? then
              t == s && reply == if l.dead.value.intent.source == source && l.dead.value.intent.content == content then Ok((id, false)) else Err(Conflict)
            else if source == AgentJudgment && !budgetOk then t == s && reply == Err(BudgetExhausted)
            else
              && reply == Ok((id, true))
              && Rewrites(s, t, id, l.(active := Some(Intent(source, content, Ready, now, None, None)),
                                       reserved := if source == AgentJudgment then l.reserved + 1 else l.reserved))
  {
    var id := IntentId(g, KeyOf(source), continuity);
    PutRewrites(s, id, Get(s, id).(active := Some(Minted(source, content, Ready, now)),
                                   reserved := if source == AgentJudgment then Get(s, id).reserved + 1 else Get(s, id).reserved));
  }

  /** A cold start keeps whatever active one exists, of either richness, and reserves nothing. */
  lemma ColdStartedExactlyWhen(s: Store, sparse: bool, continuity: string, content: Content, g: nat, now: Time)
    ensures var (t, reply) := ColdStartTxn(s, sparse, continuity, content, g, now);
            var id := IntentId(g, ColdStartKey, continuity);
            var l := Get(s, id);
            if s.generation != g then t == s && reply == Err(GenerationMismatch)
            else if l.active.Some? then
              t == s && reply == if l.active.value.source in {ColdStartRich, ColdStartSparse} then Ok((id, false)) else Err(Conflict)
            else
              && reply == Ok((id, true))
              && Rewrites(s, t, id, l.(active := Some(Intent(if sparse then ColdStartSparse else ColdStartRich, content, PendingReceipt, now, None, None))))
  {
    var id := IntentId(g, ColdStartKey, continuity);
    PutRewrites(s, id, Get(s, id).(active := Some(Minted(ColdStartSource(sparse), content, PendingReceipt, now))));
  }

  /** A deferred question waits for a day; recorded again it is confirmed only if it is the same question. */
  lemma DeferralRecordedExactlyWhen(s: Store, continuity: string, subject: string, question: string, g: nat, now: Time)
    ensures var (t, reply) := RecordDeferralTxn(s, continuity, subject, question, g, now);
            var d := DeferralId(g, continuity);
            if s.generation != g then t == s && reply == Err(GenerationMismatch)
            else if d in s.deferrals then
              t == s && reply == if s.deferrals[d].subject == subject && s.deferrals[d].question == question then Ok(false) else Err(Conflict)
            else
              reply == Ok(true) && t == s.(deferrals := s.deferrals[d := Deferral(subject, question, now + 24 * 3600, Waiting)])
  {
  }

  /** A waiting deferral is released exactly once, as its own question, unless something else took that id. */
  lemma ReleasedExactlyWhen(s: Store, d: DeferralId, g: nat, now: Time)
    ensures var (t, reply) := ReleaseTxn(s, d, g, now);
            var id := IntentId(d.generation, KeyOf(DeferralReraise), d.continuity);
            var l := Get(s, id);
            if s.generation != g then t == s && reply == Err(GenerationMismatch)
            else if d !in s.deferrals || d.generation != g || s.deferrals[d].state != Waiting then t == s && reply == Ok(None)
            else if l.active.Some? && l.active.value.source != DeferralReraise then t == s && reply == Err(Conflict)
            else
              && reply == Ok(Some(id))
              && t.deferrals == s.deferrals[d := s.deferrals[d].(state := Released(id))]
              && Rewrites(s, t.(deferrals := s.deferrals), id,
                          if l.active.Some? then l
                          else l.(active := Some(Intent(DeferralReraise, Reasked(s.deferrals[d].question, d), Ready, now, None, None))))
  {
    if s.generation == g && d in s.deferrals {
      var id := ReraiseId(d);
      var l := Get(s, id);
      var question := Minted(DeferralReraise, Reasked(s.deferrals[d].question, d), Ready, now);
      var m := if l.active.Some? then l else l.(active := Some(question));
      PutRewrites(s, id, m);
      forall x ensures Get(ReleaseTxn(s, d, g, now).0.(deferrals := s.deferrals), x) == Get(ReleaseTxn(s, d, g, now).0, x) {}
      assert Get(ReleaseTxn(s, d, g, now).0, id) == Get(ReleaseTxn(s, d, g, now).0.(deferrals := s.deferrals), id);
    }
  }

  // ----- delivery -----

  ghost predicate Awaits(l: Life) {
    l.active.Some? && (l.active.value.state == Ready || l.active.value.state == PendingReceipt)
  }

  /**
    What one advancing fetch makes of an intent: with a chat row it is delivered and accounted; otherwise the
    twentieth fetch buries it, for good if it had returned once; and any other leaves it to be handed out.
  */
  ghost predicate Advanced(l: Life, m: Life, id: IntentId, reconcile: bool, now: Time) {
    && Awaits(l)
    && var a := Counters(l).(fetches := Counters(l).fetches + 1, lastFetchedAt := Some(now));
       if reconcile then
         m == l.(active := Some(l.active.value.(state := Delivered, deliveredAt := Some(now), receipt := Some(Synthetic(id)))),
                 attempt := Some(a), accounted := if l.active.value.source == AgentJudgment then l.accounted + 1 else l.accounted)
       else if a.fetches >= 20 then
         var reason := if a.requeues > 0 then DiedAfterRequeue else Unacknowledged;
         m == l.(active := None, attempt := Some(a), dead := Some(Dead(l.active.value.(state := DeadLetter(reason)), a, reason)))
       else m == l.(attempt := Some(a))
  }

  lemma AdvancedExactlyWhen(s: Store, id: IntentId, g: nat, reconcile: bool, now: Time)
    ensures var (t, fetched) := AdvanceTxn(s, id, g, reconcile, now);
            if id.generation != g || !Awaits(Get(s, id)) then t == s && fetched == Untouched
            else
              && Advanced(Get(s, id), Get(t, id), id, reconcile, now) && Rewrites(s, t, id, Get(t, id))
              && fetched == if reconcile then Reconciled
                            else if Get(t, id).active.None? then Died(Get(t, id).dead.value.reason)
                            else Returned(s.active[id])
  {
    if Open(Get(s, id)) { PutRewrites(s, id, Fetch(Get(s, id), id, reconcile, now).0); }
  }

  /** What every report of a device is asked first. */
  function Refusal(s: Store, id: IntentId, g: nat): Option<Error> {
    if s.generation != g then Some(GenerationMismatch)
    else if id in s.active && id.generation != g then Some(DocumentMismatch)
    else None
  }

  /**
    A rejection counts exactly on a waiting intent and only with a permanent code; the third one buries it under that
    code, dated so that it can be ordered even if it was never fetched.
  */
  lemma RejectedExactlyWhen(s: Store, id: IntentId, code: string, g: nat, now: Time)
    ensures var (t, reply) := RejectTxn(s, id, code, g, now);
            var l := Get(s, id);
            if Refusal(s, id, g).Some? then t == s && reply == Err(Refusal(s, id, g).value)
            else if !Awaits(l) || (code != "invalid_intent" && code != "identity_conflict") then
              && reply == Ok(None) && Rewrites(s, t, id, l)
            else
              var a := Counters(l).(rejections := Counters(l).rejections + 1, lastRejectionCode := Some(code), lastRejectionAt := Some(now));
              if a.rejections < 3 then reply == Ok(None) && Rewrites(s, t, id, l.(attempt := Some(a)))
              else
                var kept := if a.lastFetchedAt.Some? then a else a.(lastFetchedAt := Some(now));
                var reason := PermanentRejection(code);
                && reply == Ok(Some(reason))
                && Rewrites(s, t, id, l.(active := None, attempt := Some(a),
                                         dead := Some(Dead(l.active.value.(state := DeadLetter(reason)), kept, reason))))
  {
    PutRewrites(s, id, Get(s, id));
    if Open(Get(s, id)) { PutRewrites(s, id, Reject(Get(s, id), code, now).0); }
  }

  /** A deferral is noted exactly on a waiting intent; a week after the first one it buries the intent. */
  lemma DeferredExactlyWhen(s: Store, id: IntentId, g: nat, now: Time)
    ensures var (t, reply) := DeferTxn(s, id, g, now);
            var l := Get(s, id);
            if Refusal(s, id, g).Some? then t == s && reply == Err(Refusal(s, id, g).value)
            else if !Awaits(l) then t == s && reply == Ok(false)
            else
              var first := if Counters(l).firstDeferredAt.Some? then Counters(l).firstDeferredAt.value else now;
              var a := Counters(l).(firstDeferredAt := Some(first), lastDeferralAt := Some(now));
              if now - first < 7 * 24 * 3600 then reply == Ok(false) && Rewrites(s, t, id, l.(attempt := Some(a)))
              else
                var kept := if a.lastFetchedAt.Some? then a else a.(lastFetchedAt := Some(now));
                && reply == Ok(true)
                && Rewrites(s, t, id, l.(active := None, attempt := Some(a),
                                         dead := Some(Dead(l.active.value.(state := DeadLetter(DeferredBeyondBudget)), kept, DeferredBeyondBudget))))
  {
    if Open(Get(s, id)) { PutRewrites(s, id, Defer(Get(s, id), now).0); }
  }

  ghost predicate TransientReason(r: Reason) { r == Unacknowledged || r == PermanentRejection("kernel_materialization_failed") }

  /**
    A receipt delivers exactly a waiting intent, or an active row marked dead for a transient reason that never
    returned; a delivered one confirms its own receipt, and any receipt if it was reconciled from its chat row.
  */
  lemma AcknowledgedExactlyWhen(s: Store, id: IntentId, receipt: ReceiptId, g: nat, now: Time)
    ensures var (t, reply) := AcknowledgeTxn(s, id, receipt, g, now);
            var l := Get(s, id);
            if s.generation != g then t == s && reply == Err(GenerationMismatch)
            else if l.active.None? then t == s && reply == Err(NotReady)
            else if id.generation != g then t == s && reply == Err(DocumentMismatch)
            else
              var i := l.active.value;
              if i.state == Delivered then
                t == s && reply == if i.receipt == Some(receipt) || (i.receipt.Some? && i.receipt.value.Synthetic?) then Ok(i) else Err(Conflict)
              else if i.state.DeadLetter? && !(TransientReason(i.state.reason) && Counters(l).requeues == 0) then t == s && reply == Ok(i)
              else
                var delivered := i.(state := Delivered, deliveredAt := Some(now), receipt := Some(receipt));
                && reply == Ok(delivered)
                && Rewrites(s, t, id, l.(active := Some(delivered),
                                         attempt := if i.state.DeadLetter? then Some(Counters(l).(requeues := 1)) else l.attempt,
                                         accounted := if i.source == AgentJudgment then l.accounted + 1 else l.accounted))
  {
    if Acknowledgeable(Get(s, id)) { PutRewrites(s, id, Acknowledge(Get(s, id), receipt, now)); }
  }

  /** What a repair goes by: the attempt document if there is one, and else the copy in the dead letter. */
  function RepairCounters(l: Life): Attempt
    requires l.dead.Some?
  {
    if l.attempt.Some? then l.attempt.value else l.dead.value.attempt
  }

  /** Six hours since the last rejection, or since the last fetch if nothing was rejected. */
  ghost predicate RepairIsDue(a: Attempt, now: Time) {
    if a.lastRejectionAt.Some? then now - a.lastRejectionAt.value >= 6 * 3600
    else a.lastFetchedAt.Some? && now - a.lastFetchedAt.value >= 6 * 3600
  }

  /** A dead letter returns exactly once, if it died of a transient reason and six hours passed; its fetch and rejection budgets start anew. */
  lemma RequeuedExactlyWhen(s: Store, id: IntentId, g: nat, now: Time)
    ensures var (t, done) := RequeueTxn(s, id, g, now);
            var l := Get(s, id);
            && (done <==> && id.generation == g && l.dead.Some? && TransientReason(l.dead.value.reason)
                          && RepairCounters(l).requeues == 0 && RepairIsDue(RepairCounters(l), now))
            && (!done ==> t == s)
            && (done ==>
                  Rewrites(s, t, id, l.(active := Some(l.dead.value.intent.(state := Ready)), dead := None,
                                        attempt := Some(RepairCounters(l).(fetches := 0, requeues := 1, rejections := 0,
                                                                           lastRejectionCode := None, lastRejectionAt := None)))))
  {
    if Repairable(Get(s, id), now) { PutRewrites(s, id, Requeue(Get(s, id), now)); }
  }
}
