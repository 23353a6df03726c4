/**
 * `Repeater`: the plugin object holding one ChatSession per chat id. Its
 * methods are proved against StoreSpec: the store of session values changes
 * as Swept, WithSession, Step say, and the revoke issued is RevokeFor's.
 */
module RepeaterPlugin {
  import opened Records
  import opened Window
  import opened SessionSpec
  import opened StoreSpec
  import opened StoreProperties
  import opened ChatSessions

  class Repeater {
    const enable: bool
    const cacheTimeout: int
    const enableInGroup: bool
    const enableInPrivate: bool
    const maxHistory: int
    const minRepeatCount: int
    const minDifferentUsers: int
    var chatSessions: map<string, ChatSession>

    /** The settings as a value. */
    function Settings(): Config
    {
      Config(enable, cacheTimeout, enableInGroup, enableInPrivate, maxHistory, minRepeatCount, minDifferentUsers)
    }

    /** The value of every session, by chat id. */
    function Store(): (r: Store)
      reads this, chatSessions.Values
      ensures r.Keys == chatSessions.Keys
    {
      map k | k in chatSessions :: chatSessions[k].State()
    }

    /** No two chats share a session object, and the store of values is valid. */
    ghost predicate Valid()
      reads this, chatSessions.Values
    {
      && Injective(chatSessions)
      && StoreValid(Store(), maxHistory)
    }

    /** The plugin with already-parsed settings and no sessions yet. */
    constructor (cfg: Config)
      ensures Valid()
      ensures Settings() == cfg && chatSessions == map[]
    {
      enable := cfg.enable;
      cacheTimeout := cfg.cacheTimeout;
      enableInGroup := cfg.enableInGroup;
      enableInPrivate := cfg.enableInPrivate;
      maxHistory := cfg.maxHistory;
      minRepeatCount := cfg.minRepeatCount;
      minDifferentUsers := cfg.minDifferentUsers;
      chatSessions := map[];
    }

    /**
     * The first pass of `_clean_expired_sessions(now)`: the chats whose window
     * is empty or whose newest record is more than `cacheTimeout` seconds old.
     */
    method ExpiredWxids(now: int) returns (expired: set<string>)
      ensures expired <= chatSessions.Keys
      ensures forall k :: k in chatSessions ==> (k in expired <==> Expired(Store()[k], now, cacheTimeout))
    {
      expired := {};
      var pending := chatSessions.Keys;
      while pending != {}
        invariant pending <= chatSessions.Keys && expired <= chatSessions.Keys - pending
        invariant forall k :: k in chatSessions && k !in pending ==>
                    (k in expired <==> Expired(Store()[k], now, cacheTimeout))
        decreases pending
      {
        var wxid :| wxid in pending;
        var session := chatSessions[wxid];
        assert session.State() == Store()[wxid];
        if session.messages == [] {
          expired := expired + {wxid};
        } else {
          var latestTimestamp := MaxTimestamp(session.messages);
          if now - latestTimestamp > cacheTimeout {
            expired := expired + {wxid};
          }
        }
        assert wxid in expired <==> Expired(Store()[wxid], now, cacheTimeout);
        pending := pending - {wxid};
      }
    }

    /** `_clean_expired_sessions(now)`: collect the expired chats, then delete them. */
    method CleanExpiredSessions(now: int)
      requires Valid()
      modifies this
      ensures Valid()
      ensures Store() == Swept(old(Store()), now, cacheTimeout)
      ensures forall k :: k in chatSessions ==> k in old(chatSessions) && chatSessions[k] == old(chatSessions[k])
    {
      ghost var st := Store();
      ghost var sessions := chatSessions;
      assert forall k :: k in sessions ==> st[k] == sessions[k].State();
      var expiredWxids := ExpiredWxids(now);
      DeleteSessions(expiredWxids);
      SweptStore(st, sessions, expiredWxids, now);
    }

    /** The second pass of `_clean_expired_sessions`: `del` each listed chat in turn. */
    method DeleteSessions(wxids: set<string>)
      requires wxids <= chatSessions.Keys
      modifies this
      ensures chatSessions.Keys == old(chatSessions).Keys - wxids
      ensures forall k :: k in chatSessions ==> chatSessions[k] == old(chatSessions)[k]
    {
      var doomed := wxids;
      while doomed != {}
        invariant doomed <= wxids && doomed <= chatSessions.Keys
        invariant chatSessions.Keys == old(chatSessions).Keys - (wxids - doomed)
        invariant forall k :: k in chatSessions ==> chatSessions[k] == old(chatSessions)[k]
        decreases doomed
      {
        var wxid :| wxid in doomed;
        chatSessions := chatSessions - {wxid};
        doomed := doomed - {wxid};
      }
    }

    /** Deleting exactly the expired chats from a valid map of sessions leaves the swept store. */
    lemma SweptStore(st: Store, sessions: map<string, ChatSession>, removed: set<string>, now: int)
      requires Injective(sessions) && removed <= sessions.Keys
      requires chatSessions.Keys == sessions.Keys - removed
      requires forall k :: k in chatSessions ==> chatSessions[k] == sessions[k]
      requires sessions.Keys == st.Keys
      requires forall k :: k in sessions ==> st[k] == sessions[k].State()
      requires forall k :: k in sessions ==> (k in removed <==> Expired(st[k], now, cacheTimeout))
      requires StoreValid(st, maxHistory)
      ensures Valid() && Store() == Swept(st, now, cacheTimeout)
    {
      var target := Swept(st, now, cacheTimeout);
      assert Store().Keys == target.Keys;
      forall k | k in target
        ensures Store()[k] == target[k]
      {
        assert chatSessions[k] == sessions[k];
      }
      assert Store() == target;
      assert Injective(chatSessions) by {
        forall k, k' | k in chatSessions && k' in chatSessions && k != k'
          ensures chatSessions[k] != chatSessions[k']
        {
          assert chatSessions[k] == sessions[k] && chatSessions[k'] == sessions[k'];
        }
      }
      SweptValid(st, now, cacheTimeout, maxHistory);
    }

    /** `_get_or_create_session(wxid)`. */
    method GetOrCreateSession(wxid: string) returns (session: ChatSession)
      requires Valid()
      modifies this
      ensures Valid()
      ensures Store() == WithSession(old(Store()), wxid, maxHistory)
      ensures wxid in chatSessions && session == chatSessions[wxid]
      ensures wxid in old(chatSessions) ==> chatSessions == old(chatSessions)
      ensures wxid !in old(chatSessions) ==> fresh(session) && chatSessions == old(chatSessions)[wxid := session]
    {
      if wxid !in chatSessions {
        ghost var prev := Store();
        ghost var sessions := chatSessions;
        assert forall k :: k in sessions ==> prev[k] == sessions[k].State();
        var created := new ChatSession(maxHistory);
        chatSessions := chatSessions[wxid := created];
        assert forall k :: k in sessions ==> sessions[k] != created;
        SessionAdded(prev, sessions, wxid, created);
      }
      session := chatSessions[wxid];
    }

    /** Adding a fresh empty session for `key` to a valid map of sessions. */
    lemma SessionAdded(prev: Store, sessions: map<string, ChatSession>, key: string, created: ChatSession)
      requires key !in sessions && chatSessions == sessions[key := created]
      requires created.State() == EmptySession(maxHistory)
      requires Injective(sessions) && forall k :: k in sessions ==> sessions[k] != created
      requires prev.Keys == sessions.Keys && forall k :: k in sessions ==> prev[k] == sessions[k].State()
      requires StoreValid(prev, maxHistory)
      ensures Valid() && Store() == WithSession(prev, key, maxHistory)
    {
      var target := WithSession(prev, key, maxHistory);
      forall k | k in target
        ensures Store()[k] == target[k]
      {
        if k != key {
          assert chatSessions[k] == sessions[k];
        }
      }
      assert Store() == target;
      assert Injective(chatSessions) by {
        forall k, k' | k in chatSessions && k' in chatSessions && k != k'
          ensures chatSessions[k] != chatSessions[k']
        {
          if k != key && k' != key {
            assert chatSessions[k] == sessions[k] && chatSessions[k'] == sessions[k'];
          }
        }
      }
      WithSessionValid(prev, key, maxHistory);
    }

    /**
     * `_handle_message_common`. The transport's send is not called: `outcome`
     * is what it would return (Some on success, None when it raises), and the
     * send the plugin makes is returned in `send`. Always lets other plugins run.
     */
    method HandleMessageCommon(ev: Inbound, botWxid: string, now: int, outcome: Option<RevokeInfo>)
      returns (r: bool, send: Option<Outbound>)
      requires Valid()
      modifies this, chatSessions.Values
      ensures Valid()
      ensures r
      ensures Store() == Step(old(Store()), Settings(), ev, botWxid, now, outcome).store
      ensures send == Step(old(Store()), Settings(), ev, botWxid, now, outcome).send
    {
      r, send := true, None;
      if !ShouldProcessMessage(Settings(), ev.isGroup) {
        return;
      }
      ghost var before := Store();
      ghost var sessionsBefore := chatSessions;
      CleanExpiredSessions(now);
      var session := GetOrCreateSession(ev.fromWxid);
      assert Store() == Opened(before, Settings(), ev, now);
      assert fresh(session) || session in sessionsBefore.Values by {
        if !fresh(session) {
          assert ev.fromWxid in sessionsBefore && sessionsBefore[ev.fromWxid] == session;
        }
      }
      send := RecordAndRepeat(session, ev, botWxid, now, outcome);
      StepUnfold(before, Settings(), ev, botWxid, now, outcome);
      StepPreservesValid(before, Settings(), ev, botWxid, now, outcome);
    }

    /**
     * The body of `_handle_message_common` once the chat's session is at hand:
     * add the record, skip an echoed content, and otherwise echo when
     * `should_repeat` holds, marking the content only when the send succeeded.
     */
    method RecordAndRepeat(session: ChatSession, ev: Inbound, botWxid: string, now: int,
                           outcome: Option<RevokeInfo>) returns (send: Option<Outbound>)
      requires Valid() && ev.fromWxid in chatSessions && chatSessions[ev.fromWxid] == session
      modifies session
      ensures Injective(chatSessions) && chatSessions == old(chatSessions)
      ensures var s := WithMessage(old(session.State()), RecordOf(ev, now));
              var echo := Triggers(s, ev.content, botWxid, minRepeatCount, minDifferentUsers);
              && Store() == old(Store())[ev.fromWxid := Settled(s, ev, echo, outcome)]
              && send == if echo then Some(OutboundFor(ev)) else None
    {
      send := None;
      ghost var prev := Store();
      ghost var s := WithMessage(session.State(), RecordOf(ev, now));
      ghost var echo := Triggers(s, ev.content, botWxid, minRepeatCount, minDifferentUsers);
      assert forall k :: k in chatSessions && k != ev.fromWxid ==> prev[k] == chatSessions[k].State();
      var msgInfo := Message(ev.content, ev.senderWxid, now, ev.newMsgId, ev.isEmoji);
      var _ := session.AddMessage(msgInfo);
      assert session.State() == s;
      var repeated := session.IsContentRepeated(ev.content);
      if !repeated {
        var should := session.ShouldRepeat(ev.content, botWxid, minRepeatCount, minDifferentUsers);
        assert should == echo;
        if should {
          send := Some(OutboundFor(ev));
          if outcome.Some? {
            session.MarkAsRepeated(ev.content, Some(outcome.value));
          }
        }
      }
      assert session.State() == Settled(s, ev, echo, outcome);
      SessionUpdated(prev, ev.fromWxid, session);
    }

    /** No two chats share a session object. */
    ghost predicate Injective(sessions: map<string, ChatSession>)
    {
      forall k, k' :: k in sessions && k' in sessions && k != k' ==> sessions[k] != sessions[k']
    }

    /** After the session of `key` alone changed, the store differs from `prev` at `key` alone. */
    lemma SessionUpdated(prev: Store, key: string, session: ChatSession)
      requires key in chatSessions && chatSessions[key] == session
      requires Injective(chatSessions)
      requires prev.Keys == chatSessions.Keys
      requires forall k :: k in chatSessions && k != key ==> prev[k] == chatSessions[k].State()
      ensures Store() == prev[key := session.State()]
    {
    }

    /**
     * `handle_revoke`: look the revoked id up in the chat's window and, when
     * its content has revoke info, revoke the bot's echo. The transport's
     * revoke is not called; the request is returned in `revoke`. Nothing changes.
     */
    method HandleRevoke(newMsgId: int, fromWxid: string) returns (r: bool, revoke: Option<RevokeRequest>)
      requires Valid()
      ensures r
      ensures revoke == RevokeFor(Store(), enable, newMsgId, fromWxid)
    {
      r, revoke := true, None;
      if !enable {
        return;
      }
      if newMsgId == 0 || fromWxid == "" {
        return;
      }
      if fromWxid !in chatSessions {
        return;
      }
      var session := chatSessions[fromWxid];
      assert session.State() == Store()[fromWxid];
      var revokedMsg := session.FindMessageByNewMsgId(newMsgId);
      if revokedMsg.Some? && revokedMsg.value.content != "" {
        var msgInfo := session.GetRepeatedMsgInfo(revokedMsg.value.content);
        if msgInfo.Some? {
          revoke := Some(RevokeRequest(fromWxid, msgInfo.value));
        }
      }
    }
  }
}
