/**
 * The LFG session registry: three cross-indexed maps (sessions by id, session
 * id by original message, expiry timer by id), the single teardown path
 * `expire_session` and the status renderer `render_message`.
 *
 * HTTP calls are requests appended to a `Client`; whether the platform
 * accepts a request, and the id it gives a created message, are parameters.
 * Aborting a timer is recorded in `aborted`.
 */
module Lfg {
  import opened Wrappers
  import opened Primitives
  import opened Text
  import opened Models
  import opened Discord
  import opened LfgRender

  datatype ExpiryStrategy = DeleteOriginal | ExpireMessageStale | ExpireMessageCancelled | DoNothing

  /** How an operation ends: `Ok(())`, an error propagated with `?`, or a panic. */
  datatype Outcome = Ok | Err | Panic

  /** A timer's abort handle, known only by identity. */
  type AbortHandle = nat

  /** The three maps of the manager, as one value. */
  datatype Registry = Registry(
    sessions: map<Uuid, LFGSession>,
    sessionUuids: map<MessageId, Uuid>,
    sessionTimeouts: map<Uuid, AbortHandle>)

  /**
   * The cross-index invariant: every session is stored under its own id and
   * indexed by its original message; every index entry leads back to a
   * session with that original message; only live sessions have a timer.
   */
  predicate Consistent(r: Registry) {
    (forall id | id in r.sessions ::
       r.sessions[id].uuid == id
       && r.sessions[id].originalMessage in r.sessionUuids
       && r.sessionUuids[r.sessions[id].originalMessage] == id)
    && (forall m | m in r.sessionUuids ::
          r.sessionUuids[m] in r.sessions && r.sessions[r.sessionUuids[m]].originalMessage == m)
    && r.sessionTimeouts.Keys <= r.sessions.Keys
  }

  /** No map of `r` mentions `id`, as a key or as an indexed value. */
  predicate Forgotten(r: Registry, id: Uuid) {
    id !in r.sessions && id !in r.sessionTimeouts
    && forall m | m in r.sessionUuids :: r.sessionUuids[m] != id
  }

  const DELETE_REASON := "LFG Ping expired"

  // ------------------------------------------------------------- teardown

  /** The in-memory part of `expire_session`. */
  function Teardown(r: Registry, id: Uuid): Registry {
    Registry(
      r.sessions - {id},
      if id in r.sessions then r.sessionUuids - {r.sessions[id].originalMessage} else r.sessionUuids,
      r.sessionTimeouts - {id})
  }

  /** The timer `expire_session` aborts: the one registered for `id`, if any. */
  function CancelledTimers(r: Registry, id: Uuid): seq<AbortHandle> {
    if id in r.sessionTimeouts then [r.sessionTimeouts[id]] else []
  }

  /** An edit that turns the status message into a notice: no content, no notifications, one embed. */
  function NoticeEdit(s: LFGSession, reply: MessageId, embed: Embed): Request {
    UpdateMessage(s.channel, reply, Clear, Some(BLANK_ALLOWED_MENTIONS), Some([embed]))
  }

  /** The request the external step of `expire_session` sends for the removed session `s`. */
  function StrategyRequests(s: LFGSession, strategy: ExpiryStrategy, nowMs: i64): (reqs: seq<Request>)
    ensures |reqs| <= 1
    ensures reqs != [] ==> s.replyMessage.Some? && strategy != DoNothing
  {
    match s.replyMessage
    case None => []
    case Some(reply) =>
      match strategy
      case DoNothing => []
      case DeleteOriginal => [DeleteMessage(s.channel, s.originalMessage, DELETE_REASON)]
      case ExpireMessageStale =>
        (match ExpiredIndex(nowMs)
         case None => []
         case Some(i) => [NoticeEdit(s, reply, StaleEmbed(i))])
      case ExpireMessageCancelled => [NoticeEdit(s, reply, CancelledEmbed(s.author))]
  }

  function StrategyOutcome(s: LFGSession, strategy: ExpiryStrategy, nowMs: i64, httpOk: bool): Outcome {
    if s.replyMessage.Some? && strategy == ExpireMessageStale && ExpiredIndex(nowMs).None? then Panic
    else if StrategyRequests(s, strategy, nowMs) == [] || httpOk then Ok
    else Err
  }

  function ExpiryRequests(r: Registry, strategy: ExpiryStrategy, id: Uuid, nowMs: i64): seq<Request> {
    if id in r.sessions then StrategyRequests(r.sessions[id], strategy, nowMs) else []
  }

  function ExpiryOutcome(r: Registry, strategy: ExpiryStrategy, id: Uuid, nowMs: i64, httpOk: bool): Outcome {
    if id in r.sessions then StrategyOutcome(r.sessions[id], strategy, nowMs, httpOk) else Ok
  }

  // ------------------------------------------------------------ rendering

  /** The first status message: not a reply, no mention override. */
  function StatusCreate(s: LFGSession): Request {
    CreateMessage(s.channel, StatusContent(s), [StatusEmbed(s)], StatusComponents(s), None)
  }

  /** A later status: only the embed of the existing message is replaced. */
  function StatusUpdate(s: LFGSession, reply: MessageId): Request {
    UpdateMessage(s.channel, reply, Keep, None, Some([StatusEmbed(s)]))
  }

  function ReadyAnnouncement(s: LFGSession): Request {
    CreateMessage(s.channel, ReadyContent(s), [ReadyEmbed(s)], [], Some(READY_ALLOWED_MENTIONS))
  }

  /** The clock value handed to the quorum teardown; DeleteOriginal never reads it. */
  const QUORUM_CLOCK: i64 := 0

  function RenderRequests(r: Registry, s: LFGSession, teardownOk: bool): seq<Request> {
    if Ready(s) then
      ExpiryRequests(r, DeleteOriginal, s.uuid, QUORUM_CLOCK)
      + (if ExpiryOutcome(r, DeleteOriginal, s.uuid, QUORUM_CLOCK, teardownOk) == Ok
         then [ReadyAnnouncement(s)] else [])
    else match s.replyMessage
      case None => [StatusCreate(s)]
      case Some(reply) => [StatusUpdate(s, reply)]
  }

  function RenderRegistry(r: Registry, s: LFGSession, sendOk: bool, sentId: MessageId): Registry {
    if Ready(s) then Teardown(r, s.uuid)
    else if s.replyMessage.None? && sendOk && s.uuid in r.sessions then
      r.(sessions := r.sessions[s.uuid := r.sessions[s.uuid].(replyMessage := Some(sentId))])
    else r
  }

  function RenderCancelledTimers(r: Registry, s: LFGSession): seq<AbortHandle> {
    if Ready(s) then CancelledTimers(r, s.uuid) else []
  }

  function RenderOutcome(r: Registry, s: LFGSession, teardownOk: bool, sendOk: bool): Outcome {
    if Ready(s) && ExpiryOutcome(r, DeleteOriginal, s.uuid, QUORUM_CLOCK, teardownOk) != Ok then
      ExpiryOutcome(r, DeleteOriginal, s.uuid, QUORUM_CLOCK, teardownOk)
    else if sendOk then Ok
    else Err
  }

  /** The number of messages `reqs` creates. */
  function Creates(reqs: seq<Request>): nat {
    if |reqs| == 0 then 0 else (if reqs[0].CreateMessage? then 1 else 0) + Creates(reqs[1..])
  }

  /** The number of messages `reqs` edits. */
  function Updates(reqs: seq<Request>): nat {
    if |reqs| == 0 then 0 else (if reqs[0].UpdateMessage? then 1 else 0) + Updates(reqs[1..])
  }

  // ------------------------------------------------------------ the manager

  class LFGManager {
    var sessions: map<Uuid, LFGSession>
    var sessionUuids: map<MessageId, Uuid>
    var sessionTimeouts: map<Uuid, AbortHandle>
    /** Every timer aborted through its handle, in order. */
    var aborted: seq<AbortHandle>

    constructor ()
      ensures State() == Registry(map[], map[], map[]) && aborted == []
      ensures Consistent(State())
    {
      sessions := map[];
      sessionUuids := map[];
      sessionTimeouts := map[];
      aborted := [];
    }

    function State(): Registry
      reads this
    {
      Registry(sessions, sessionUuids, sessionTimeouts)
    }

    /**
     * Tears the session `sessionId` down: aborts its timer, forgets it, then
     * acts on the visible messages as `strategy` says.  `nowMs` is the clock
     * in milliseconds; `httpOk` whether the platform accepts the request.
     */
    method ExpireSession(client: Client, strategy: ExpiryStrategy, sessionId: Uuid, nowMs: i64, httpOk: bool)
      returns (res: Outcome)
      modifies this, client
      ensures State() == Teardown(old(State()), sessionId)
      ensures aborted == old(aborted) + CancelledTimers(old(State()), sessionId)
      ensures client.requests == old(client.requests) + ExpiryRequests(old(State()), strategy, sessionId, nowMs)
      ensures res == ExpiryOutcome(old(State()), strategy, sessionId, nowMs, httpOk)
    {
      if sessionId in sessionTimeouts {
        var handle := sessionTimeouts[sessionId];
        sessionTimeouts := sessionTimeouts - {sessionId};
        aborted := aborted + [handle];
      }

      if sessionId !in sessions {
        return Ok;
      }
      var session := sessions[sessionId];
      sessions := sessions - {sessionId};

      sessionUuids := sessionUuids - {session.originalMessage};

      if session.replyMessage.None? {
        return Ok;
      }
      var reply := session.replyMessage.value;

      if strategy == DoNothing {
        return Ok;
      }

      if strategy == DeleteOriginal {
        client.Send(DeleteMessage(session.channel, session.originalMessage, DELETE_REASON));
        return if httpOk then Ok else Err;
      }

      var embed;
      if strategy == ExpireMessageStale {
        var index := ExpiredIndex(nowMs);
        if index.None? {
          return Panic;
        }
        embed := StaleEmbed(index.value);
      } else {
        embed := CancelledEmbed(session.author);
      }
      client.Send(NoticeEdit(session, reply, embed));
      return if httpOk then Ok else Err;
    }

    /**
     * Reconciles the visible status of the snapshot `session`: on quorum it
     * tears the session down and announces the group; otherwise it creates
     * the status message (recording its id `sentId` on the stored session)
     * or edits the existing one.  `teardownOk` and `sendOk` say whether the
     * platform accepts the teardown's request and the renderer's own.
     */
    method RenderMessage(client: Client, session: LFGSession, teardownOk: bool, sendOk: bool, sentId: MessageId)
      returns (res: Outcome)
      modifies this, client
      ensures State() == RenderRegistry(old(State()), session, sendOk, sentId)
      ensures aborted == old(aborted) + RenderCancelledTimers(old(State()), session)
      ensures client.requests == old(client.requests) + RenderRequests(old(State()), session, teardownOk)
      ensures res == RenderOutcome(old(State()), session, teardownOk, sendOk)
    {
      var numerator := session.initialNumber + |session.participants|;

      if numerator >= session.requiredNumber {
        var torn := ExpireSession(client, DeleteOriginal, session.uuid, QUORUM_CLOCK, teardownOk);
        if torn != Ok {
          return torn;
        }
        client.Send(ReadyAnnouncement(session));
        return if sendOk then Ok else Err;
      }

      match session.replyMessage {
        case None =>
          client.Send(StatusCreate(session));
          if !sendOk {
            return Err;
          }
          if session.uuid in sessions {
            sessions := sessions[session.uuid := sessions[session.uuid].(replyMessage := Some(sentId))];
          }
          return Ok;
        case Some(reply) =>
          client.Send(StatusUpdate(session, reply));
          return if sendOk then Ok else Err;
      }
    }
  }

  // ------------------------------------------------- teardown properties

  /** Tearing down an id without a session only drops (and aborts) its timer, and acts on nothing. */
  lemma ExpireAbsent(r: Registry, strategy: ExpiryStrategy, id: Uuid, nowMs: i64, httpOk: bool)
    requires id !in r.sessions
    ensures Teardown(r, id) == r.(sessionTimeouts := r.sessionTimeouts - {id})
    ensures CancelledTimers(r, id) == [] <==> id !in r.sessionTimeouts
    ensures forall h <- CancelledTimers(r, id) :: id in r.sessionTimeouts && h == r.sessionTimeouts[id]
    ensures ExpiryRequests(r, strategy, id, nowMs) == []
    ensures ExpiryOutcome(r, strategy, id, nowMs, httpOk) == Ok
  {
  }

  /** A second teardown of the same id changes nothing, aborts nothing, sends nothing and succeeds. */
  lemma ExpireIdempotent(r: Registry, strategy: ExpiryStrategy, id: Uuid, nowMs: i64, httpOk: bool)
    ensures Teardown(Teardown(r, id), id) == Teardown(r, id)
    ensures CancelledTimers(Teardown(r, id), id) == []
    ensures ExpiryRequests(Teardown(r, id), strategy, id, nowMs) == []
    ensures ExpiryOutcome(Teardown(r, id), strategy, id, nowMs, httpOk) == Ok
  {
  }

  /**
   * Teardown removes the id from the session and timer maps and the
   * session's original message from the index, and leaves every other entry
   * of the three maps as it was.
   */
  lemma TeardownFrame(r: Registry, id: Uuid)
    ensures var t := Teardown(r, id);
      id !in t.sessions && id !in t.sessionTimeouts
      && (id in r.sessions ==> r.sessions[id].originalMessage !in t.sessionUuids)
      && (forall k | k != id :: (k in t.sessions <==> k in r.sessions)
                                && (k in t.sessionTimeouts <==> k in r.sessionTimeouts))
      && (forall k | k in t.sessions :: t.sessions[k] == r.sessions[k])
      && (forall k | k in t.sessionTimeouts :: t.sessionTimeouts[k] == r.sessionTimeouts[k])
      && (forall m | m in r.sessionUuids && (id !in r.sessions || m != r.sessions[id].originalMessage) ::
            m in t.sessionUuids && t.sessionUuids[m] == r.sessionUuids[m])
      && t.sessionUuids.Keys <= r.sessionUuids.Keys
  {
  }

  /** Teardown keeps the cross-index invariant and leaves no trace of the id. */
  lemma TeardownConsistent(r: Registry, id: Uuid)
    requires Consistent(r)
    ensures Consistent(Teardown(r, id))
    ensures Forgotten(Teardown(r, id), id)
  {
    var t := Teardown(r, id);
    forall m | m in t.sessionUuids
      ensures t.sessionUuids[m] != id && t.sessionUuids[m] in t.sessions
              && t.sessions[t.sessionUuids[m]].originalMessage == m
    {
      assert m in r.sessionUuids;
    }
    forall k | k in t.sessions
      ensures t.sessions[k].originalMessage in t.sessionUuids && t.sessionUuids[t.sessions[k].originalMessage] == k
    {
      assert k != id && k in r.sessions;
    }
  }

  /**
   * The external step, by strategy, for a session `s` removed with a status
   * message: DeleteOriginal deletes the original message (not the status
   * message); Stale and Cancelled edit the status message into a notice with
   * no content, no notifications and one embed; DoNothing, or a session
   * without a status message, leads to no request.
   */
  lemma StrategyEffects(s: LFGSession, nowMs: i64)
    ensures s.replyMessage.None? ==>
              forall st :: StrategyRequests(s, st, nowMs) == [] && StrategyOutcome(s, st, nowMs, false) == Ok
    ensures StrategyRequests(s, DoNothing, nowMs) == []
    ensures s.replyMessage.Some? ==>
              StrategyRequests(s, DeleteOriginal, nowMs) == [DeleteMessage(s.channel, s.originalMessage, DELETE_REASON)]
    ensures s.replyMessage.Some? && nowMs >= 0 ==>
              StrategyRequests(s, ExpireMessageStale, nowMs)
              == [UpdateMessage(s.channel, s.replyMessage.value, Clear, Some(BLANK_ALLOWED_MENTIONS),
                                Some([Embed(EXPIRED_COLOR, "Expired ping", EXPIRED_MESSAGES[nowMs % 4])]))]
    ensures s.replyMessage.Some? && nowMs < 0 && nowMs % 4 != 0 ==>
              StrategyRequests(s, ExpireMessageStale, nowMs) == []
              && StrategyOutcome(s, ExpireMessageStale, nowMs, true) == Panic
    ensures s.replyMessage.Some? ==>
              StrategyRequests(s, ExpireMessageCancelled, nowMs)
              == [UpdateMessage(s.channel, s.replyMessage.value, Clear, Some(BLANK_ALLOWED_MENTIONS),
                                Some([Embed(EXPIRED_COLOR, "Cancelled ping",
                                            "No, that wasn't a ghost... it just looks like "
                                            + Mention(s.author) + " backed out!")]))]
  {
  }

  // ------------------------------------------------- rendering properties

  lemma {:induction false} CountsAppend(a: seq<Request>, b: seq<Request>)
    ensures Creates(a + b) == Creates(a) + Creates(b)
    ensures Updates(a + b) == Updates(a) + Updates(b)
    decreases |a|
  {
    if |a| > 0 {
      assert (a + b)[1..] == a[1..] + b;
      CountsAppend(a[1..], b);
    } else {
      assert a + b == b;
    }
  }

  /**
   * On quorum the renderer tears the session down with DeleteOriginal (which
   * at most deletes the original message), then, if that succeeded, creates
   * exactly one message: the ready announcement in the session's channel,
   * whose spoilered mentions name the author, the joiners and the users
   * mentioned at creation, in order, and which lets role and user mentions
   * notify.  It never creates or edits a status message.
   */
  lemma QuorumAnnounces(r: Registry, s: LFGSession, teardownOk: bool, sendOk: bool, sentId: MessageId)
    requires Ready(s)
    ensures RenderRegistry(r, s, sendOk, sentId) == Teardown(r, s.uuid)
    ensures RenderCancelledTimers(r, s) == CancelledTimers(r, s.uuid)
    ensures var reqs := RenderRequests(r, s, teardownOk);
      Updates(reqs) == 0
      && Creates(reqs) == (if ExpiryOutcome(r, DeleteOriginal, s.uuid, QUORUM_CLOCK, teardownOk) == Ok then 1 else 0)
      && (forall i | 0 <= i < |reqs| && reqs[i].DeleteMessage? ::
            reqs[i] == DeleteMessage(r.sessions[s.uuid].channel, r.sessions[s.uuid].originalMessage, DELETE_REASON))
      && (forall i | 0 <= i < |reqs| && reqs[i].CreateMessage? ::
            reqs[i].channel == s.channel
            && Unspoiler(reqs[i].content) == Some(MentionList(s))
            && ParseMentions(MentionList(s)) == Some(Named(s))
            && reqs[i].allowedMentions == Some(AllowedMentions(false, [Roles, Users], [], [])))
  {
    var reqs := RenderRequests(r, s, teardownOk);
    var del := ExpiryRequests(r, DeleteOriginal, s.uuid, QUORUM_CLOCK);
    var ann := if ExpiryOutcome(r, DeleteOriginal, s.uuid, QUORUM_CLOCK, teardownOk) == Ok
               then [ReadyAnnouncement(s)] else [];
    assert reqs == del + ann;
    CountsAppend(del, ann);
    assert Creates(del) == 0 && Updates(del) == 0;
    ReadyMentionsRoundTrip(s);
  }

  /**
   * Below quorum the renderer sends exactly one request and changes no timer:
   * without a status message it creates one in the session's channel, with
   * the title "LFG Ping [count/required]" and one join button carrying
   * "lfg-" and the session id; with a status message it edits that message
   * in place, replacing only the embed, and creates nothing.  Either way the
   * embed's description is the headline followed by the listing as lfg.rs
   * builds it, line by line.
   */
  lemma BelowQuorumStatus(r: Registry, s: LFGSession, teardownOk: bool)
    requires !Ready(s)
    ensures RenderCancelledTimers(r, s) == []
    ensures Lines(StatusEmbed(s).description)
            == [StatusHeadline(s), "", HEADING] + GluedBullets(s) + OthersLines(s) + ["", FOOTER]
    ensures var reqs := RenderRequests(r, s, teardownOk);
      |reqs| == 1
      && (s.replyMessage.None? ==>
            Creates(reqs) == 1 && Updates(reqs) == 0
            && reqs[0].CreateMessage? && reqs[0].channel == s.channel
            && reqs[0].embeds == [Embed(STATUS_COLOR, "LFG Ping [" + Decimal(Count(s)) + "/"
                                                      + Decimal(s.requiredNumber) + "]", StatusDescription(s))]
            && reqs[0].components == [ActionRow([Button(Some("lfg-" + UuidText(s.uuid)), false,
                                                         Some(JOIN_LABEL), Primary)])])
      && (s.replyMessage.Some? ==>
            Creates(reqs) == 0 && Updates(reqs) == 1
            && reqs[0] == UpdateMessage(s.channel, s.replyMessage.value, Keep, None, Some([StatusEmbed(s)])))
  {
    StatusDescriptionLines(s);
  }

  /**
   * Below quorum the snapshot is never written back: the only change to the
   * maps is the stored session's status message id, set to the created
   * message's id when a first status message was sent and the session is
   * still stored.
   */
  lemma BelowQuorumWriteBack(r: Registry, s: LFGSession, sendOk: bool, sentId: MessageId)
    requires !Ready(s)
    ensures var t := RenderRegistry(r, s, sendOk, sentId);
      t.sessionUuids == r.sessionUuids && t.sessionTimeouts == r.sessionTimeouts
      && t.sessions.Keys == r.sessions.Keys
      && (forall k | k in r.sessions && k != s.uuid :: t.sessions[k] == r.sessions[k])
      && (s.uuid in r.sessions ==>
            t.sessions[s.uuid] == if s.replyMessage.None? && sendOk
                                  then r.sessions[s.uuid].(replyMessage := Some(sentId))
                                  else r.sessions[s.uuid])
  {
  }

  /** Rendering keeps the cross-index invariant. */
  lemma RenderConsistent(r: Registry, s: LFGSession, sendOk: bool, sentId: MessageId)
    requires Consistent(r)
    ensures Consistent(RenderRegistry(r, s, sendOk, sentId))
  {
    if Ready(s) {
      TeardownConsistent(r, s.uuid);
    }
  }

  /**
   * The status message is created once: after a successful first render of a
   * stored session, the stored session records the new message, and a later
   * below-quorum render of the stored session edits that message and
   * creates nothing.
   */
  lemma StatusCreatedOnce(r: Registry, s: LFGSession, sentId: MessageId, teardownOk: bool)
    requires !Ready(s) && s.replyMessage.None? && s.uuid in r.sessions
    ensures var t := RenderRegistry(r, s, true, sentId);
      s.uuid in t.sessions && t.sessions[s.uuid].replyMessage == Some(sentId)
      && (!Ready(t.sessions[s.uuid]) ==>
            RenderRequests(t, t.sessions[s.uuid], teardownOk) == [StatusUpdate(t.sessions[s.uuid], sentId)]
            && Creates(RenderRequests(t, t.sessions[s.uuid], teardownOk)) == 0)
  {
  }

  /**
   * A timer that fires after quorum has torn its session down finds nothing:
   * no request, no abort, no change, and success.
   */
  lemma TimerAfterQuorum(r: Registry, s: LFGSession, sendOk: bool, sentId: MessageId, nowMs: i64, httpOk: bool)
    requires Ready(s)
    ensures var t := RenderRegistry(r, s, sendOk, sentId);
      Teardown(t, s.uuid) == t
      && CancelledTimers(t, s.uuid) == []
      && ExpiryRequests(t, ExpireMessageStale, s.uuid, nowMs) == []
      && ExpiryOutcome(t, ExpireMessageStale, s.uuid, nowMs, httpOk) == Ok
  {
    ExpireIdempotent(r, ExpireMessageStale, s.uuid, nowMs, httpOk);
  }
}
