/**
 * The value-level model of the plugin: the store of sessions keyed by chat id,
 * the sweep of expired sessions, get-or-create, the gate, and one inbound
 * message or revoke event as a function of the store before it.
 */
module StoreSpec {
  import opened Records
  import opened Window
  import opened SessionSpec

  type Store = map<string, SessionState>

  /** The new store and the send (if any) the plugin issued for one inbound message. */
  datatype StepResult = StepResult(store: Store, send: Option<Outbound>)

  /** A session of the plugin: it has the configured bound, is within it, and
      holds revoke info for exactly the contents it has echoed. */
  predicate SessionOk(s: SessionState, maxHistory: int)
  {
    && s.maxHistory == maxHistory
    && SessionValid(s)
    && s.repeatedMsgs.Keys == s.repeatedContents
  }

  /** The store invariant: every session is a session of the plugin. */
  predicate StoreValid(store: Store, maxHistory: int)
  {
    forall k :: k in store ==> SessionOk(store[k], maxHistory)
  }

  /** `_should_process_message`: the plugin is on, and on for this kind of chat. */
  function ShouldProcessMessage(cfg: Config, isGroup: bool): (r: bool)
    ensures r <==> cfg.enable && (if isGroup then cfg.enableInGroup else cfg.enableInPrivate)
  {
    if !cfg.enable then false
    else if (isGroup && !cfg.enableInGroup) || (!isGroup && !cfg.enableInPrivate) then false
    else true
  }

  /** A session is swept when its window is empty or its newest record is more
      than `cacheTimeout` seconds older than `now`. */
  predicate Expired(s: SessionState, now: int, cacheTimeout: int)
  {
    s.messages == [] || now - MaxTimestamp(s.messages) > cacheTimeout
  }

  /** The store after `_clean_expired_sessions(now)`. */
  function Swept(store: Store, now: int, cacheTimeout: int): (r: Store)
    ensures r.Keys <= store.Keys
    ensures forall k :: k in store && !Expired(store[k], now, cacheTimeout) ==> k in r && r[k] == store[k]
    ensures forall k :: k in store && Expired(store[k], now, cacheTimeout) ==> k !in r
  {
    map k | k in store && !Expired(store[k], now, cacheTimeout) :: store[k]
  }

  /** The store after `_get_or_create_session(key)`. */
  function WithSession(store: Store, key: string, maxHistory: int): (r: Store)
    ensures key in r
    ensures forall k :: k in store ==> k in r && r[k] == store[k]
    ensures forall k :: k in r && k != key ==> k in store
    ensures key !in store ==> r[key] == EmptySession(maxHistory)
  {
    if key in store then store else store[key := EmptySession(maxHistory)]
  }

  /** The record the plugin builds for an inbound event received at `now`. */
  function RecordOf(ev: Inbound, now: int): Message
  {
    Message(ev.content, ev.senderWxid, now, ev.newMsgId, ev.isEmoji)
  }

  /** The send of an echo: the sticker again for a sticker, the content as text otherwise. */
  function OutboundFor(ev: Inbound): Outbound
  {
    if ev.isEmoji then SendEmoji(ev.fromWxid, ev.emojiMd5, ev.emojiLength)
    else SendText(ev.fromWxid, ev.content)
  }

  /** The store once the sweep has run and the chat's session exists. */
  function Opened(store: Store, cfg: Config, ev: Inbound, now: int): Store
  {
    WithSession(Swept(store, now, cfg.cacheTimeout), ev.fromWxid, cfg.maxHistory)
  }

  /** The chat's session once the record of `ev` has been added. */
  function Received(store: Store, cfg: Config, ev: Inbound, now: int): SessionState
  {
    WithMessage(Opened(store, cfg, ev, now)[ev.fromWxid], RecordOf(ev, now))
  }

  /** The chat's session after the echo decision: marked only when an echo was
      sent and the send returned its identifiers. */
  function Settled(s: SessionState, ev: Inbound, echo: bool, outcome: Option<RevokeInfo>): SessionState
  {
    if echo && outcome.Some? then Marked(s, ev.content, outcome) else s
  }

  /**
   * One inbound message (`_handle_message_common`). `outcome` is what the
   * transport's send returns if a send is made: Some(info) on success, None
   * when it raises.
   */
  function Step(store: Store, cfg: Config, ev: Inbound, botWxid: string, now: int,
                outcome: Option<RevokeInfo>): StepResult
  {
    if !ShouldProcessMessage(cfg, ev.isGroup) then StepResult(store, None)
    else
      var s := Received(store, cfg, ev, now);
      var echo := Triggers(s, ev.content, botWxid, cfg.minRepeatCount, cfg.minDifferentUsers);
      StepResult(Opened(store, cfg, ev, now)[ev.fromWxid := Settled(s, ev, echo, outcome)],
                 if echo then Some(OutboundFor(ev)) else None)
  }

  /**
   * The revoke `handle_revoke` issues for the transport id `revokedId` in chat
   * `fromWxid`. Id 0 and the empty chat id stand for absent fields; a record
   * with empty content never leads to a revoke.
   */
  function RevokeFor(store: Store, enable: bool, revokedId: int, fromWxid: string): (r: Option<RevokeRequest>)
    ensures r.Some? ==> enable && revokedId != 0 && fromWxid != "" && fromWxid in store
    ensures r.Some? ==> r.value.toWxid == fromWxid && r.value.info in store[fromWxid].repeatedMsgs.Values
  {
    if !enable || revokedId == 0 || fromWxid == "" || fromWxid !in store then None
    else
      var s := store[fromWxid];
      match LatestWithId(s.messages, revokedId)
      case None => None
      case Some(m) =>
        if m.content != "" && m.content in s.repeatedMsgs
        then Some(RevokeRequest(fromWxid, s.repeatedMsgs[m.content]))
        else None
  }
}
