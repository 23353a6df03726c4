/**
 * What one inbound message and one revoke event do to the store, proved of
 * the value-level model in StoreSpec.
 */
module StoreProperties {
  import opened Records
  import opened Window
  import opened SessionSpec
  import opened StoreSpec

  /** Record `i` is the most recent record of the window with transport id `id`. */
  ghost predicate LatestAt(w: seq<Message>, i: int, id: int)
  {
    0 <= i < |w| && w[i].newMsgId == id && forall j :: i < j < |w| ==> w[j].newMsgId != id
  }

  /** The sweep is strict: a session survives exactly when its newest record is
      at most `cacheTimeout` seconds old. */
  lemma SweepBoundary(store: Store, k: string, now: int, cacheTimeout: int, newest: int)
    requires k in store
    requires exists i :: 0 <= i < |store[k].messages| && store[k].messages[i].timestamp == newest
    requires forall i :: 0 <= i < |store[k].messages| ==> store[k].messages[i].timestamp <= newest
    ensures k in Swept(store, now, cacheTimeout) <==> now - newest <= cacheTimeout
  {
    var w := store[k].messages;
    var i :| 0 <= i < |w| && w[i].timestamp == newest;
    assert MaxTimestamp(w) == newest;
  }

  /** The sweep keeps the store invariant. */
  lemma SweptValid(store: Store, now: int, cacheTimeout: int, maxHistory: int)
    requires StoreValid(store, maxHistory)
    ensures StoreValid(Swept(store, now, cacheTimeout), maxHistory)
  {
  }

  /** Get-or-create keeps the store invariant. */
  lemma WithSessionValid(store: Store, key: string, maxHistory: int)
    requires StoreValid(store, maxHistory)
    ensures StoreValid(WithSession(store, key, maxHistory), maxHistory)
  {
  }

  /** Get-or-create is idempotent and touches no other chat. */
  lemma WithSessionIdempotent(store: Store, key: string, maxHistory: int)
    ensures WithSession(WithSession(store, key, maxHistory), key, maxHistory) == WithSession(store, key, maxHistory)
    ensures key in store ==> WithSession(store, key, maxHistory) == store
    ensures WithSession(store, key, maxHistory).Keys == store.Keys + {key}
  {
  }

  /** A processed message: the chat's session is replaced by its settled state. */
  lemma StepUnfold(store: Store, cfg: Config, ev: Inbound, botWxid: string, now: int,
                   outcome: Option<RevokeInfo>)
    requires ShouldProcessMessage(cfg, ev.isGroup)
    ensures var s := Received(store, cfg, ev, now);
            var echo := Triggers(s, ev.content, botWxid, cfg.minRepeatCount, cfg.minDifferentUsers);
            Step(store, cfg, ev, botWxid, now, outcome) ==
              StepResult(Opened(store, cfg, ev, now)[ev.fromWxid := Settled(s, ev, echo, outcome)],
                         if echo then Some(OutboundFor(ev)) else None)
  {
  }

  /** A message the gate turns away changes nothing and sends nothing. */
  lemma StepGatedOff(store: Store, cfg: Config, ev: Inbound, botWxid: string, now: int,
                     outcome: Option<RevokeInfo>)
    requires !ShouldProcessMessage(cfg, ev.isGroup)
    ensures Step(store, cfg, ev, botWxid, now, outcome) == StepResult(store, None)
  {
  }

  /**
   * A processed message adds exactly one record to its chat's window; every
   * other chat is kept as it was or swept.
   */
  lemma StepAppendsOne(store: Store, cfg: Config, ev: Inbound, botWxid: string, now: int,
                       outcome: Option<RevokeInfo>)
    requires ShouldProcessMessage(cfg, ev.isGroup)
    ensures var r := Step(store, cfg, ev, botWxid, now, outcome);
            var before := Opened(store, cfg, ev, now)[ev.fromWxid];
            && ev.fromWxid in r.store
            && r.store[ev.fromWxid].messages == Appended(before.messages, RecordOf(ev, now), before.maxHistory)
            && r.store[ev.fromWxid].maxHistory == before.maxHistory
    ensures var r := Step(store, cfg, ev, botWxid, now, outcome);
            forall k :: k != ev.fromWxid ==>
              && (k in r.store <==> k in store && !Expired(store[k], now, cfg.cacheTimeout))
              && (k in r.store ==> r.store[k] == store[k])
  {
  }

  /**
   * A send is made exactly when the content was not echoed before and the
   * thresholds hold; the content is marked, with the send's revoke info, only
   * when that send succeeded.
   */
  lemma StepEcho(store: Store, cfg: Config, ev: Inbound, botWxid: string, now: int,
                 outcome: Option<RevokeInfo>)
    requires ShouldProcessMessage(cfg, ev.isGroup)
    ensures var r := Step(store, cfg, ev, botWxid, now, outcome);
            var before := Opened(store, cfg, ev, now)[ev.fromWxid];
            var after := Received(store, cfg, ev, now);
            var echoed := r.send.Some? && outcome.Some?;
            && (r.send.Some? <==> ev.content !in before.repeatedContents &&
                                  RepeatCount(after.messages, ev.content) >= cfg.minRepeatCount &&
                                  |SendersOf(after.messages, ev.content)| >= cfg.minDifferentUsers &&
                                  botWxid !in SendersOf(after.messages, ev.content))
            && (r.send.Some? ==> r.send.value == OutboundFor(ev))
            && r.store[ev.fromWxid].repeatedContents ==
                 before.repeatedContents + (if echoed then {ev.content} else {})
            && r.store[ev.fromWxid].repeatedMsgs ==
                 (if echoed then before.repeatedMsgs[ev.content := outcome.value] else before.repeatedMsgs)
  {
  }

  /** Echo history never shrinks for a chat whose session survives the sweep. */
  lemma StepKeepsEchoed(store: Store, cfg: Config, ev: Inbound, botWxid: string, now: int,
                        outcome: Option<RevokeInfo>, k: string)
    requires k in store
    requires ShouldProcessMessage(cfg, ev.isGroup) ==> !Expired(store[k], now, cfg.cacheTimeout)
    ensures var r := Step(store, cfg, ev, botWxid, now, outcome);
            k in r.store && store[k].repeatedContents <= r.store[k].repeatedContents
  {
  }

  /**
   * The sweep runs before the lookup: a chat whose session had expired starts
   * over with an empty session, so its earlier echo history is lost.
   */
  lemma StepForgetsExpired(store: Store, cfg: Config, ev: Inbound, botWxid: string, now: int,
                           outcome: Option<RevokeInfo>)
    requires ShouldProcessMessage(cfg, ev.isGroup)
    requires ev.fromWxid in store ==> Expired(store[ev.fromWxid], now, cfg.cacheTimeout)
    ensures var r := Step(store, cfg, ev, botWxid, now, outcome);
            && r.store[ev.fromWxid].messages == (if cfg.maxHistory >= 1 then [RecordOf(ev, now)] else [])
            && r.store[ev.fromWxid].repeatedContents <= {ev.content}
  {
    var swept := Swept(store, now, cfg.cacheTimeout);
    assert ev.fromWxid !in swept;
    assert Opened(store, cfg, ev, now)[ev.fromWxid] == EmptySession(cfg.maxHistory);
    var s := Received(store, cfg, ev, now);
    var m := RecordOf(ev, now);
    assert [] + [m] == [m];
    assert s.messages == if cfg.maxHistory >= 1 then [m] else [];
    assert s.repeatedContents == {};
    var r := Step(store, cfg, ev, botWxid, now, outcome);
    assert r.store[ev.fromWxid] == Settled(s, ev, Triggers(s, ev.content, botWxid, cfg.minRepeatCount, cfg.minDifferentUsers), outcome);
  }

  /** One inbound message keeps the store invariant. */
  lemma StepPreservesValid(store: Store, cfg: Config, ev: Inbound, botWxid: string, now: int,
                           outcome: Option<RevokeInfo>)
    requires StoreValid(store, cfg.maxHistory)
    ensures StoreValid(Step(store, cfg, ev, botWxid, now, outcome).store, cfg.maxHistory)
  {
    if ShouldProcessMessage(cfg, ev.isGroup) {
      var swept := Swept(store, now, cfg.cacheTimeout);
      SweptValid(store, now, cfg.cacheTimeout, cfg.maxHistory);
      WithSessionValid(swept, ev.fromWxid, cfg.maxHistory);
      var ready := Opened(store, cfg, ev, now);
      var before := ready[ev.fromWxid];
      assert SessionOk(before, cfg.maxHistory);
      var s := Received(store, cfg, ev, now);
      WithMessageValid(before, RecordOf(ev, now));
      assert SessionOk(s, cfg.maxHistory);
      var echo := Triggers(s, ev.content, botWxid, cfg.minRepeatCount, cfg.minDifferentUsers);
      var settled := Settled(s, ev, echo, outcome);
      assert SessionOk(settled, cfg.maxHistory);
      StepUnfold(store, cfg, ev, botWxid, now, outcome);
      UpdateValid(ready, ev.fromWxid, settled, cfg.maxHistory);
    }
  }

  /** Replacing one session by a session of the plugin keeps the store invariant. */
  lemma UpdateValid(store: Store, key: string, s: SessionState, maxHistory: int)
    requires StoreValid(store, maxHistory) && SessionOk(s, maxHistory)
    ensures StoreValid(store[key := s], maxHistory)
  {
  }

  /** The most recent record with a given id is unique. */
  lemma LatestAtUnique(w: seq<Message>, i: int, j: int, id: int)
    requires LatestAt(w, i, id) && LatestAt(w, j, id)
    ensures i == j
  {
  }

  /**
   * For a processable revoke, the revoke issued is that of the most recent
   * record with the revoked id: the stored info of its content, or none.
   */
  lemma RevokeForLatest(store: Store, enable: bool, revokedId: int, fromWxid: string, i: int)
    requires enable && revokedId != 0 && fromWxid != "" && fromWxid in store
    requires LatestAt(store[fromWxid].messages, i, revokedId)
    ensures var s := store[fromWxid];
            var c := s.messages[i].content;
            RevokeFor(store, enable, revokedId, fromWxid) ==
              if c != "" && c in s.repeatedMsgs then Some(RevokeRequest(fromWxid, s.repeatedMsgs[c])) else None
  {
    var w := store[fromWxid].messages;
    var found := LatestWithId(w, revokedId);
    assert found.Some?;
    var j :| 0 <= j < |w| && w[j] == found.value && w[j].newMsgId == revokedId &&
             forall k :: j < k < |w| ==> w[k].newMsgId != revokedId;
    LatestAtUnique(w, i, j, revokedId);
  }

  /** The no-op cases of `handle_revoke`. */
  lemma RevokeForNoop(store: Store, enable: bool, revokedId: int, fromWxid: string)
    requires || !enable || revokedId == 0 || fromWxid == "" || fromWxid !in store
             || (forall i :: 0 <= i < |store[fromWxid].messages| ==> store[fromWxid].messages[i].newMsgId != revokedId)
    ensures RevokeFor(store, enable, revokedId, fromWxid) == None
  {
  }

  /**
   * Revoking the message that triggered a successful echo revokes that echo,
   * with the identifiers its send returned.
   */
  lemma EchoThenRevoke(store: Store, cfg: Config, ev: Inbound, botWxid: string, now: int, info: RevokeInfo)
    requires StoreValid(store, cfg.maxHistory) && cfg.maxHistory >= 1
    requires ShouldProcessMessage(cfg, ev.isGroup)
    requires Step(store, cfg, ev, botWxid, now, Some(info)).send.Some?
    requires ev.newMsgId != 0 && ev.fromWxid != "" && ev.content != ""
    ensures RevokeFor(Step(store, cfg, ev, botWxid, now, Some(info)).store, cfg.enable, ev.newMsgId, ev.fromWxid)
            == Some(RevokeRequest(ev.fromWxid, info))
  {
    var r := Step(store, cfg, ev, botWxid, now, Some(info));
    StepAppendsOne(store, cfg, ev, botWxid, now, Some(info));
    StepEcho(store, cfg, ev, botWxid, now, Some(info));
    var ready := Opened(store, cfg, ev, now);
    assert StoreValid(ready, cfg.maxHistory);
    var w := r.store[ev.fromWxid].messages;
    assert w[|w| - 1] == RecordOf(ev, now);
    assert LatestAt(w, |w| - 1, ev.newMsgId);
    RevokeForLatest(r.store, cfg.enable, ev.newMsgId, ev.fromWxid, |w| - 1);
  }

  /** The settings of the example run: group chats only, both thresholds 2. */
  function ExampleConfig(): Config
  {
    Config(true, 3600, true, false, 50, 2, 2)
  }

  /** "hi" from `sender` in group g1 with transport id `id`. */
  function ExampleHi(sender: string, id: int): Inbound
  {
    Inbound(true, "g1", sender, id, "hi", false, "", 0)
  }

  lemma ExampleFirst(other: RevokeInfo)
    ensures var r := Step(map[], ExampleConfig(), ExampleHi("a", 101), "bot", 10, Some(other));
            r.send == None &&
            r.store == map["g1" := SessionState([RecordOf(ExampleHi("a", 101), 10)], 50, {}, map[])]
  {
    var cfg, a := ExampleConfig(), ExampleHi("a", 101);
    var ma := RecordOf(a, 10);
    assert Opened(map[], cfg, a, 10) == map["g1" := EmptySession(50)];
    assert [] + [ma] == [ma];
    var s := Received(map[], cfg, a, 10);
    assert s == SessionState([ma], 50, {}, map[]);
    assert [ma][..0] == [];
    assert RepeatCount([ma], "hi") == 1;
    assert !Triggers(s, a.content, "bot", cfg.minRepeatCount, cfg.minDifferentUsers);
  }

  lemma ExampleSecond(info: RevokeInfo)
    ensures var ma := RecordOf(ExampleHi("a", 101), 10);
            var mb := RecordOf(ExampleHi("b", 102), 11);
            var r := Step(map["g1" := SessionState([ma], 50, {}, map[])], ExampleConfig(),
                          ExampleHi("b", 102), "bot", 11, Some(info));
            r.send == Some(SendText("g1", "hi")) &&
            r.store == map["g1" := SessionState([ma, mb], 50, {"hi"}, map["hi" := info])]
  {
    var cfg, b := ExampleConfig(), ExampleHi("b", 102);
    var ma, mb := RecordOf(ExampleHi("a", 101), 10), RecordOf(b, 11);
    var store := map["g1" := SessionState([ma], 50, {}, map[])];
    assert MaxTimestamp([ma]) == 10;
    assert !Expired(store["g1"], 11, 3600);
    assert Swept(store, 11, 3600) == store;
    assert Opened(store, cfg, b, 11) == store;
    var s := Received(store, cfg, b, 11);
    assert s == SessionState([ma, mb], 50, {}, map[]);
    assert [ma, mb][..1] == [ma];
    assert [ma][..0] == [];
    assert RepeatCount([ma], "hi") == 1 && SendersOf([ma], "hi") == {"a"};
    assert RepeatCount([ma, mb], "hi") == 2;
    assert SendersOf([ma, mb], "hi") == {"a", "b"};
    assert Triggers(s, b.content, "bot", cfg.minRepeatCount, cfg.minDifferentUsers);
  }

  lemma ExampleThird(info: RevokeInfo, other: RevokeInfo)
    ensures var ma := RecordOf(ExampleHi("a", 101), 10);
            var mb := RecordOf(ExampleHi("b", 102), 11);
            var mc := RecordOf(ExampleHi("c", 103), 12);
            var r := Step(map["g1" := SessionState([ma, mb], 50, {"hi"}, map["hi" := info])], ExampleConfig(),
                          ExampleHi("c", 103), "bot", 12, Some(other));
            r.send == None &&
            r.store == map["g1" := SessionState([ma, mb, mc], 50, {"hi"}, map["hi" := info])]
  {
    var cfg, c := ExampleConfig(), ExampleHi("c", 103);
    var ma, mb, mc := RecordOf(ExampleHi("a", 101), 10), RecordOf(ExampleHi("b", 102), 11), RecordOf(c, 12);
    var store := map["g1" := SessionState([ma, mb], 50, {"hi"}, map["hi" := info])];
    assert [ma, mb][..1] == [ma];
    assert MaxTimestamp([ma, mb]) == 11;
    assert !Expired(store["g1"], 12, 3600);
    assert Swept(store, 12, 3600) == store;
    assert Opened(store, cfg, c, 12) == store;
    assert [ma, mb] + [mc] == [ma, mb, mc];
    var s := Received(store, cfg, c, 12);
    assert s == SessionState([ma, mb, mc], 50, {"hi"}, map["hi" := info]);
    assert !Triggers(s, c.content, "bot", cfg.minRepeatCount, cfg.minDifferentUsers);
    StepUnfold(store, cfg, c, "bot", 12, Some(other));
  }

  /**
   * The example run: in group g1 with both thresholds 2, "a" says "hi" (no
   * echo), "b" says "hi" (echo), "c" says "hi" (skipped, already echoed), and
   * revoking b's message revokes the echo.
   */
  lemma ExampleRun(info: RevokeInfo, other: RevokeInfo)
    ensures var r1 := Step(map[], ExampleConfig(), ExampleHi("a", 101), "bot", 10, Some(other));
            var r2 := Step(r1.store, ExampleConfig(), ExampleHi("b", 102), "bot", 11, Some(info));
            var r3 := Step(r2.store, ExampleConfig(), ExampleHi("c", 103), "bot", 12, Some(other));
            && r1.send == None
            && r2.send == Some(SendText("g1", "hi"))
            && r3.send == None
            && RevokeFor(r3.store, true, 102, "g1") == Some(RevokeRequest("g1", info))
  {
    ExampleFirst(other);
    ExampleSecond(info);
    ExampleThird(info, other);
    var ma, mb, mc := RecordOf(ExampleHi("a", 101), 10), RecordOf(ExampleHi("b", 102), 11), RecordOf(ExampleHi("c", 103), 12);
    var store := map["g1" := SessionState([ma, mb, mc], 50, {"hi"}, map["hi" := info])];
    assert LatestAt([ma, mb, mc], 1, 102);
    RevokeForLatest(store, true, 102, "g1", 1);
  }
}
