/**
 * The window of one chat: a bounded FIFO of message records, and the queries
 * the plugin runs over it (content counts, senders, lookup by message id,
 * newest timestamp).
 */
module Window {
  import opened Records

  /** The most records a window with setting `maxHistory` can hold. */
  function Cap(maxHistory: int): nat
  {
    if maxHistory < 0 then 0 else maxHistory
  }

  /** The last `n` elements of `s` (all of `s` when it is shorter). */
  function LastN<T>(s: seq<T>, n: nat): seq<T>
  {
    if |s| <= n then s else s[|s| - n..]
  }

  /**
   * The window after `add_message`: the record goes to the end, and when the
   * window is then longer than `maxHistory` its oldest record is dropped.
   */
  function Appended(w: seq<Message>, m: Message, maxHistory: int): (r: seq<Message>)
    ensures |w| <= Cap(maxHistory) ==> |r| <= Cap(maxHistory)
    ensures maxHistory >= 1 ==> r != [] && r[|r| - 1] == m
  {
    var pushed := w + [m];
    if |pushed| > maxHistory then pushed[1..] else pushed
  }

  /** The window after `add_message` has been called once for each record of `ms`, in order. */
  function AppendAll(w: seq<Message>, ms: seq<Message>, maxHistory: int): seq<Message>
    decreases |ms|
  {
    if ms == [] then w else AppendAll(Appended(w, ms[0], maxHistory), ms[1..], maxHistory)
  }

  lemma LastNDropFront<T>(x: seq<T>, rest: seq<T>, n: nat)
    requires |x| > n
    ensures LastN(x[1..] + rest, n) == LastN(x + rest, n)
  {
    assert x[1..] + rest == (x + rest)[1..];
  }

  /** One `add_message` step keeps the same suffix of everything added so far. */
  lemma AppendedThenRest(w: seq<Message>, m: Message, rest: seq<Message>, maxHistory: int)
    requires |w| <= Cap(maxHistory)
    ensures LastN(Appended(w, m, maxHistory) + rest, Cap(maxHistory)) == LastN(w + [m] + rest, Cap(maxHistory))
  {
    var pushed := w + [m];
    if |pushed| > maxHistory {
      LastNDropFront(pushed, rest, Cap(maxHistory));
    }
  }

  lemma AppendAllFirst(w: seq<Message>, ms: seq<Message>, maxHistory: int)
    requires ms != []
    ensures AppendAll(w, ms, maxHistory) == AppendAll(Appended(w, ms[0], maxHistory), ms[1..], maxHistory)
  {
  }

  lemma LastNOfSplit(w: seq<Message>, ms: seq<Message>, n: nat)
    requires ms != []
    ensures LastN(w + [ms[0]] + ms[1..], n) == LastN(w + ms, n)
  {
    assert w + [ms[0]] + ms[1..] == w + ms;
  }

  /** The inductive step of AppendAllKeepsLatest, given the claim for the rest of the records. */
  lemma AppendAllStep(w: seq<Message>, ms: seq<Message>, maxHistory: int)
    requires |w| <= Cap(maxHistory) && ms != []
    requires var w1 := Appended(w, ms[0], maxHistory);
             AppendAll(w1, ms[1..], maxHistory) == LastN(w1 + ms[1..], Cap(maxHistory))
    ensures AppendAll(w, ms, maxHistory) == LastN(w + ms, Cap(maxHistory))
  {
    AppendAllFirst(w, ms, maxHistory);
    AppendedThenRest(w, ms[0], ms[1..], maxHistory);
    LastNOfSplit(w, ms, Cap(maxHistory));
  }

  /**
   * However many records are added, a window that starts within its bound
   * holds exactly the most recent `Cap(maxHistory)` records, in arrival order.
   */
  lemma {:induction false} AppendAllKeepsLatest(w: seq<Message>, ms: seq<Message>, maxHistory: int)
    requires |w| <= Cap(maxHistory)
    ensures AppendAll(w, ms, maxHistory) == LastN(w + ms, Cap(maxHistory))
    decreases |ms|
  {
    if ms == [] {
      assert w + ms == w;
    } else {
      AppendAllKeepsLatest(Appended(w, ms[0], maxHistory), ms[1..], maxHistory);
      AppendAllStep(w, ms, maxHistory);
    }
  }

  /**
   * Appending N > maxHistory records to an empty window leaves exactly the
   * last maxHistory of them: the earliest N - maxHistory are gone.
   */
  lemma WindowAfterMany(ms: seq<Message>, maxHistory: int)
    requires 0 <= maxHistory < |ms|
    ensures |AppendAll([], ms, maxHistory)| == maxHistory
    ensures AppendAll([], ms, maxHistory) == ms[|ms| - maxHistory..]
  {
    var empty: seq<Message> := [];
    AppendAllKeepsLatest(empty, ms, maxHistory);
    LastNFromEmpty(ms, Cap(maxHistory));
  }

  lemma LastNFromEmpty(ms: seq<Message>, n: nat)
    requires n < |ms|
    ensures LastN([] + ms, n) == ms[|ms| - n..]
  {
    assert [] + ms == ms;
  }

  /** The contents of the window, in order. */
  function ContentsOf(w: seq<Message>): (r: seq<string>)
    ensures |r| == |w|
  {
    seq(|w|, i requires 0 <= i < |w| => w[i].content)
  }

  /** How many records of the window carry content `c`. */
  function RepeatCount(w: seq<Message>, c: string): nat
  {
    if w == [] then 0
    else RepeatCount(w[..|w| - 1], c) + (if w[|w| - 1].content == c then 1 else 0)
  }

  /** The senders of the records of the window that carry content `c`. */
  function SendersOf(w: seq<Message>, c: string): set<string>
  {
    if w == [] then {}
    else SendersOf(w[..|w| - 1], c) + (if w[|w| - 1].content == c then {w[|w| - 1].senderWxid} else {})
  }

  /** RepeatCount is the multiplicity of `c` among the window's contents. */
  lemma {:induction false} RepeatCountIsMultiplicity(w: seq<Message>, c: string)
    ensures RepeatCount(w, c) == multiset(ContentsOf(w))[c]
  {
    if w != [] {
      var n := |w| - 1;
      RepeatCountIsMultiplicity(w[..n], c);
      assert ContentsOf(w) == ContentsOf(w[..n]) + [w[n].content];
    }
  }

  /** A user is in SendersOf exactly when some record with content `c` is theirs. */
  lemma {:induction false} SendersOfMeans(w: seq<Message>, c: string, u: string)
    ensures u in SendersOf(w, c) <==>
            exists i :: 0 <= i < |w| && w[i].content == c && w[i].senderWxid == u
  {
    if w != [] {
      var n := |w| - 1;
      var front := w[..n];
      SendersOfMeans(front, c, u);
      if u in SendersOf(w, c) {
        if u in SendersOf(front, c) {
          var i :| 0 <= i < |front| && front[i].content == c && front[i].senderWxid == u;
          assert w[i] == front[i];
        } else {
          assert w[n].content == c && w[n].senderWxid == u;
        }
      }
      if exists i :: 0 <= i < |w| && w[i].content == c && w[i].senderWxid == u {
        var i :| 0 <= i < |w| && w[i].content == c && w[i].senderWxid == u;
        if i < n {
          assert front[i] == w[i];
        }
      }
    }
  }

  /** There are never more distinct senders of a content than records of it. */
  lemma {:induction false} SendersAtMostCount(w: seq<Message>, c: string)
    ensures |SendersOf(w, c)| <= RepeatCount(w, c)
  {
    if w != [] {
      SendersAtMostCount(w[..|w| - 1], c);
    }
  }

  /**
   * The most recently appended record whose transport id is `id`, or None
   * when no record of the window has that id.
   */
  function LatestWithId(w: seq<Message>, id: int): (r: Option<Message>)
    ensures r.None? <==> forall i :: 0 <= i < |w| ==> w[i].newMsgId != id
    ensures r.Some? ==> exists i :: 0 <= i < |w| && w[i] == r.value && w[i].newMsgId == id &&
                                    forall j :: i < j < |w| ==> w[j].newMsgId != id
  {
    if w == [] then None
    else if w[|w| - 1].newMsgId == id then Some(w[|w| - 1])
    else LatestWithId(w[..|w| - 1], id)
  }

  /** LatestWithId looks at the newest record first. */
  lemma LatestWithIdLast(w: seq<Message>, id: int)
    requires w != []
    ensures LatestWithId(w, id) ==
            if w[|w| - 1].newMsgId == id then Some(w[|w| - 1]) else LatestWithId(w[..|w| - 1], id)
  {
  }

  /** The newest timestamp of a non-empty window. */
  function MaxTimestamp(w: seq<Message>): (r: int)
    requires w != []
    ensures forall i :: 0 <= i < |w| ==> w[i].timestamp <= r
    ensures exists i :: 0 <= i < |w| && w[i].timestamp == r
  {
    if |w| == 1 then w[0].timestamp
    else
      var front := MaxTimestamp(w[..|w| - 1]);
      if front < w[|w| - 1].timestamp then w[|w| - 1].timestamp else front
  }
}
