/** The request for user input that the daemon finds in the messages after a graph run. */
module Pending {
  import opened Payloads

  /** `content`: what parsing the message's text gives; None when it is no text or not JSON. */
  datatype Message = Message(human: bool, content: Option<Json>)

  const WINDOW := 6

  /** The request a message carries: a dictionary with a dictionary under this key. */
  function Request(m: Message): Option<Json> {
    if m.content.None? || !m.content.value.JObj? then None
    else
      var p := Get(m.content.value.fields, "pending_user_input");
      if p.JObj? then Some(p) else None
  }

  function LastSix(msgs: seq<Message>): seq<Message> {
    if |msgs| <= WINDOW then msgs else msgs[|msgs| - WINDOW..]
  }

  /** The newest request of the whole history is at `i`. */
  ghost predicate Newest(msgs: seq<Message>, i: nat) {
    && i < |msgs| && Request(msgs[i]).Some?
    && forall j :: i < j < |msgs| ==> Request(msgs[j]).None?
  }

  ghost predicate Answered(msgs: seq<Message>, i: nat) {
    exists j :: i < j < |msgs| && msgs[j].human
  }

  /** The request is reported exactly when it is the newest of the whole history, nobody has answered since,
      and it is among the last six messages. */
  ghost predicate Reports(msgs: seq<Message>, r: Option<Json>) {
    forall request :: r == Some(request) <==>
      exists i: nat :: Newest(msgs, i) && Request(msgs[i]) == Some(request) && !Answered(msgs, i) && i >= |msgs| - WINDOW
  }

  lemma NewestUnique(msgs: seq<Message>, i: nat, j: nat)
    requires Newest(msgs, i) && Newest(msgs, j)
    ensures i == j
  {
  }

  lemma NothingFound(msgs: seq<Message>)
    requires forall i :: 0 <= i < |msgs| && i >= |msgs| - WINDOW ==> Request(msgs[i]).None?
    ensures Reports(msgs, None)
  {
  }

  lemma FoundAt(msgs: seq<Message>, i: nat)
    requires Newest(msgs, i) && i >= |msgs| - WINDOW
    ensures Reports(msgs, if Answered(msgs, i) then None else Request(msgs[i]))
  {
    forall j: nat | Newest(msgs, j) ensures i == j {
      NewestUnique(msgs, i, j);
    }
  }

  /** The loop over the window: the last request in it. */
  method LatestIn(window: seq<Message>) returns (latest: Option<Json>, at: nat)
    ensures latest.None? ==> forall k :: 0 <= k < |window| ==> Request(window[k]).None?
    ensures latest.Some? ==> Newest(window, at) && Request(window[at]) == latest
  {
    latest, at := None, 0;
    for i := 0 to |window|
      invariant latest.None? ==> forall k :: 0 <= k < i ==> Request(window[k]).None?
      invariant latest.Some? ==> at < i && Request(window[at]) == latest
      invariant latest.Some? ==> forall k :: at < k < i ==> Request(window[k]).None?
    {
      if Request(window[i]).Some? {
        latest, at := Request(window[i]), i;
      }
    }
  }

  /** The loop over what follows the request. */
  method HumanAfter(window: seq<Message>, at: nat) returns (found: bool)
    requires at < |window|
    ensures found <==> Answered(window, at)
  {
    for i := at + 1 to |window|
      invariant forall k :: at < k < i ==> !window[k].human
    {
      if window[i].human {
        return true;
      }
    }
    return false;
  }

  /** Where the suffix from `base` on has its newest request, the whole history has its. */
  lemma SuffixDecides(msgs: seq<Message>, base: nat, at: nat)
    requires base <= |msgs| && Newest(msgs[base..], at)
    ensures Newest(msgs, base + at) && Request(msgs[base + at]) == Request(msgs[base..][at])
    ensures Answered(msgs, base + at) <==> Answered(msgs[base..], at)
  {
    var window := msgs[base..];
    forall j | base + at < j < |msgs| ensures Request(msgs[j]).None? {
      assert msgs[j] == window[j - base];
    }
    if Answered(msgs, base + at) {
      var j :| base + at < j < |msgs| && msgs[j].human;
      assert window[j - base].human;
    }
    if Answered(window, at) {
      var k :| at < k < |window| && window[k].human;
      assert msgs[base + k].human;
    }
  }

  method ExtractPending(msgs: seq<Message>) returns (r: Option<Json>)
    ensures Reports(msgs, r)
  {
    var window := LastSix(msgs);
    ghost var base: nat := |msgs| - |window|;
    assert window == msgs[base..];
    var latest, at := LatestIn(window);
    if latest.None? {
      assert forall i :: base <= i < |msgs| ==> msgs[i] == window[i - base];
      NothingFound(msgs);
      return None;
    }
    SuffixDecides(msgs, base, at);
    FoundAt(msgs, base + at);
    var answered := HumanAfter(window, at);
    r := if answered then None else latest;
  }

  /** What counts as a request: text that parses as a dictionary with a dictionary under this key, and that dictionary
      is the request. The window is six messages. */
  lemma RequestExactly(m: Message, request: Json, msgs: seq<Message>)
    ensures Request(m) == Some(request) <==>
            && m.content.Some? && m.content.value.JObj?
            && Get(m.content.value.fields, "pending_user_input") == request && request.JObj?
    ensures |LastSix(msgs)| == (if |msgs| < 6 then |msgs| else 6)
    ensures LastSix(msgs) == msgs[|msgs| - |LastSix(msgs)|..]
  {
  }

  /** After a resume the daemon appends the answer as a human message and lets the graph add messages. A
      request reported afterwards was made at or after that answer, so the request just answered cannot
      send the mission back to waiting. */
  lemma ResumeNeedsNewRequest(history: seq<Message>, answer: Message, added: seq<Message>, r: Option<Json>)
    requires answer.human && Reports(history + [answer] + added, r)
    ensures r.Some? ==> exists i :: 0 <= i < |[answer] + added| && Request(([answer] + added)[i]) == r
  {
    var msgs := history + [answer] + added;
    if r.Some? {
      var i: nat :| Newest(msgs, i) && Request(msgs[i]) == Some(r.value) && !Answered(msgs, i);
      assert msgs[|history|] == answer;
      assert i >= |history|;
      assert ([answer] + added)[i - |history|] == msgs[i];
    }
  }

  /** A request further back than six messages is dropped although nobody answered it. */
  lemma OldRequestDropped(request: Message, after: seq<Message>, r: Option<Json>)
    requires Request(request).Some? && |after| >= WINDOW
    requires forall i :: 0 <= i < |after| ==> Request(after[i]).None? && !after[i].human
    requires Reports([request] + after, r)
    ensures Newest([request] + after, 0) && !Answered([request] + after, 0) && r == None
  {
    var msgs := [request] + after;
    assert forall j :: 0 < j < |msgs| ==> msgs[j] == after[j - 1];
    assert forall i: nat :: 0 < i < |msgs| ==> !Newest(msgs, i);
  }
}
