/**
 * `ChatSession`: the per-chat object whose window, echoed-content set and
 * revoke-info map are updated in place. Each method is proved against the
 * value-level definitions of Window and SessionSpec.
 */
module ChatSessions {
  import opened Records
  import opened Window
  import opened SessionSpec

  class ChatSession {
    var messages: seq<Message>
    const maxHistory: int
    var repeatedContents: set<string>
    var repeatedMsgs: map<string, RevokeInfo>

    /** The session as a value. */
    function State(): SessionState
      reads this
    {
      SessionState(messages, maxHistory, repeatedContents, repeatedMsgs)
    }

    ghost predicate Valid()
      reads this
    {
      SessionValid(State())
    }

    constructor (maxHistory: int)
      ensures Valid()
      ensures State() == EmptySession(maxHistory)
    {
      messages := [];
      this.maxHistory := maxHistory;
      repeatedContents := {};
      repeatedMsgs := map[];
    }

    /** `add_message`: push at the end, drop the oldest record when over the bound. */
    method AddMessage(m: Message) returns (r: Message)
      requires Valid()
      modifies this
      ensures Valid()
      ensures r == m
      ensures messages == Appended(old(messages), m, maxHistory)
      ensures repeatedContents == old(repeatedContents) && repeatedMsgs == old(repeatedMsgs)
    {
      messages := messages + [m];
      if |messages| > maxHistory {
        messages := messages[1..];
      }
      r := m;
    }

    /**
     * `should_repeat`: one pass over the window with a counter and a set of
     * senders of `content`.
     */
    method ShouldRepeat(content: string, botWxid: string, minRepeatCount: int, minUsers: int)
      returns (r: bool)
      ensures r == Triggers(State(), content, botWxid, minRepeatCount, minUsers)
    {
      if content in repeatedContents {
        return false;
      }
      var sameContentCount := 0;
      var senders: set<string> := {};
      for i := 0 to |messages|
        invariant sameContentCount == RepeatCount(messages[..i], content)
        invariant senders == SendersOf(messages[..i], content)
      {
        assert messages[..i + 1][..i] == messages[..i];
        if messages[i].content == content {
          sameContentCount := sameContentCount + 1;
          senders := senders + {messages[i].senderWxid};
        }
      }
      assert messages[..|messages|] == messages;
      r := sameContentCount >= minRepeatCount && |senders| >= minUsers && botWxid !in senders;
    }

    /** `mark_as_repeated`: the content is echoed for good; revoke info is kept when given. */
    method MarkAsRepeated(content: string, revokeInfo: Option<RevokeInfo>)
      requires Valid()
      modifies this
      ensures Valid()
      ensures repeatedContents == old(repeatedContents) + {content}
      ensures repeatedMsgs == if revokeInfo.Some? then old(repeatedMsgs)[content := revokeInfo.value]
                              else old(repeatedMsgs)
      ensures messages == old(messages)
    {
      repeatedContents := repeatedContents + {content};
      if revokeInfo.Some? {
        repeatedMsgs := repeatedMsgs[content := revokeInfo.value];
      }
    }

    /** `is_content_repeated`. */
    method IsContentRepeated(content: string) returns (r: bool)
      ensures r <==> content in repeatedContents
    {
      r := content in repeatedContents;
    }

    /** `find_message_by_new_msg_id`: scan the window from the newest record back. */
    method FindMessageByNewMsgId(newMsgId: int) returns (r: Option<Message>)
      ensures r == LatestWithId(messages, newMsgId)
      ensures r.None? <==> forall i :: 0 <= i < |messages| ==> messages[i].newMsgId != newMsgId
    {
      var i := |messages|;
      assert messages[..i] == messages;
      while i > 0
        invariant 0 <= i <= |messages|
        invariant LatestWithId(messages, newMsgId) == LatestWithId(messages[..i], newMsgId)
      {
        LatestWithIdLast(messages[..i], newMsgId);
        assert messages[..i][..i - 1] == messages[..i - 1];
        if messages[i - 1].newMsgId == newMsgId {
          return Some(messages[i - 1]);
        }
        i := i - 1;
      }
      r := None;
    }

    /** `get_repeated_msg_info`: the revoke info stored for a content, if any. */
    method GetRepeatedMsgInfo(content: string) returns (r: Option<RevokeInfo>)
      ensures r.Some? <==> content in repeatedMsgs
      ensures r.Some? ==> r.value == repeatedMsgs[content]
    {
      if content in repeatedMsgs {
        r := Some(repeatedMsgs[content]);
      } else {
        r := None;
      }
    }
  }
}
