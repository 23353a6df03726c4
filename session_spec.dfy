/**
 * The value-level model of one chat session: how each ChatSession operation
 * changes a SessionState, and the echo decision of `should_repeat`.
 */
module SessionSpec {
  import opened Records
  import opened Window

  /** A fresh session: an empty window and no echo history. */
  function EmptySession(maxHistory: int): SessionState
  {
    SessionState([], maxHistory, {}, map[])
  }

  /** The object invariant of a session: the window is within its bound and
      revoke info is only kept for contents that were echoed. */
  predicate SessionValid(s: SessionState)
  {
    |s.messages| <= Cap(s.maxHistory) && s.repeatedMsgs.Keys <= s.repeatedContents
  }

  /** The session after `add_message(m)`. */
  function WithMessage(s: SessionState, m: Message): SessionState
  {
    s.(messages := Appended(s.messages, m, s.maxHistory))
  }

  /** The session after `mark_as_repeated(c, info)`; info is only stored when present. */
  function Marked(s: SessionState, c: string, info: Option<RevokeInfo>): SessionState
  {
    s.(repeatedContents := s.repeatedContents + {c},
       repeatedMsgs := if info.Some? then s.repeatedMsgs[c := info.value] else s.repeatedMsgs)
  }

  /**
   * The decision of `should_repeat`: the content was not echoed before, at
   * least `minRepeatCount` records of the window carry it, they come from at
   * least `minUsers` distinct senders, and the bot is not one of them.
   */
  predicate Triggers(s: SessionState, c: string, botWxid: string, minRepeatCount: int, minUsers: int)
  {
    && c !in s.repeatedContents
    && RepeatCount(s.messages, c) >= minRepeatCount
    && |SendersOf(s.messages, c)| >= minUsers
    && botWxid !in SendersOf(s.messages, c)
  }

  lemma WithMessageValid(s: SessionState, m: Message)
    requires SessionValid(s)
    ensures SessionValid(WithMessage(s, m))
    ensures WithMessage(s, m).repeatedContents == s.repeatedContents
    ensures WithMessage(s, m).repeatedMsgs == s.repeatedMsgs
  {
  }

  /**
   * Once a content is marked, it is echoed for good: whatever the window
   * holds afterwards, the decision for that content is false.
   */
  lemma MarkedSuppresses(s: SessionState, c: string, info: Option<RevokeInfo>, w: seq<Message>,
                         botWxid: string, minRepeatCount: int, minUsers: int)
    ensures c in Marked(s, c, info).repeatedContents
    ensures s.repeatedContents <= Marked(s, c, info).repeatedContents
    ensures !Triggers(Marked(s, c, info).(messages := w), c, botWxid, minRepeatCount, minUsers)
  {
  }

  /** If every record with content `c` was sent by one user, two required users are never reached. */
  lemma OneSenderNeverTriggers(s: SessionState, c: string, u: string, botWxid: string,
                               minRepeatCount: int, minUsers: int)
    requires forall i :: 0 <= i < |s.messages| && s.messages[i].content == c ==> s.messages[i].senderWxid == u
    requires minUsers >= 2
    ensures !Triggers(s, c, botWxid, minRepeatCount, minUsers)
  {
    forall v | v in SendersOf(s.messages, c)
      ensures v == u
    {
      SendersOfMeans(s.messages, c, v);
    }
    var senders := SendersOf(s.messages, c);
    if u in senders {
      assert senders == {u};
    } else {
      assert senders == {};
    }
  }

  /** A content the bot itself has sent (as seen in the window) is never echoed. */
  lemma BotSenderNeverTriggers(s: SessionState, c: string, botWxid: string, i: nat,
                               minRepeatCount: int, minUsers: int)
    requires i < |s.messages| && s.messages[i].content == c && s.messages[i].senderWxid == botWxid
    ensures !Triggers(s, c, botWxid, minRepeatCount, minUsers)
  {
    SendersOfMeans(s.messages, c, botWxid);
  }

  /** An echo needs both thresholds met; since senders never outnumber records,
      the record count also reaches `minUsers`. */
  lemma ThresholdsNecessary(s: SessionState, c: string, botWxid: string, minRepeatCount: int, minUsers: int)
    requires Triggers(s, c, botWxid, minRepeatCount, minUsers)
    ensures RepeatCount(s.messages, c) >= minRepeatCount && RepeatCount(s.messages, c) >= minUsers
    ensures multiset(ContentsOf(s.messages))[c] >= minRepeatCount
  {
    SendersAtMostCount(s.messages, c);
    RepeatCountIsMultiplicity(s.messages, c);
  }
}
