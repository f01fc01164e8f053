/** The delivery state machine `Client`: staged entries are posted to the
    caption endpoint in numbered batches, retried with a doubling backoff
    until the server accepts them or the retry window closes, and an empty
    heartbeat is posted when the client has been idle. Times and delays are
    milliseconds; the clock, the random backoff and the server's reply are
    inputs. */
module Delivery {
  import opened TextEntries

  /** An idle client posts a heartbeat at least this often. */
  const HeartbeatInterval := 5000
  /** A batch is given up on once a post fails this long after its first try. */
  const RetryTimeout := 5000
  /** The wait, when there is nothing more to do, until the next tick. */
  const PollInterval := 1000
  /** The backoff a fresh batch starts from. */
  const InitialRetryDelay := 100

  datatype Option<T> = None | Some(value: T)

  /** How one post ends: the server answered with its clock reading, the
      request failed (no connection, timeout, an error status), or the server
      answered with a body that is not a timestamp, which raises out of the
      client. */
  datatype PostOutcome = Accepted(serverTime: int) | RequestFailed | MalformedReply

  /** One entry as it goes on the wire: its shifted time, then its text. */
  datatype BodyLine = BodyLine(timestamp: int, text: string)

  /** A post: the endpoint, the sequence number appended to it, and the body. */
  datatype Request = Request(url: string, seqNo: int, body: seq<BodyLine>)

  /** What a tick hands back to its scheduler: the wait until the next tick,
      or the exception it raised. */
  datatype TickResult = Wait(ms: int) | Raised

  function Pow2(n: nat): (r: nat)
    ensures r >= 1
  {
    if n == 0 then 1 else 2 * Pow2(n - 1)
  }

  /** The text with every newline written as `<br>`, so that each entry
      stays on one line of the body. */
  function Escaped(s: string): (r: string)
    ensures forall i :: 0 <= i < |r| ==> r[i] != '\n'
    ensures (forall i :: 0 <= i < |s| ==> s[i] != '\n') ==> r == s
    ensures |r| >= |s|
  {
    if s == [] then []
    else (if s[0] == '\n' then "<br>" else [s[0]]) + Escaped(s[1..])
  }

  /** Escaping works piece by piece. */
  lemma {:induction false} EscapedAppend(a: string, b: string)
    ensures Escaped(a + b) == Escaped(a) + Escaped(b)
  {
    if a == [] {
      assert a + b == b;
    } else {
      assert (a + b)[0] == a[0];
      assert (a + b)[1..] == a[1..] + b;
      EscapedAppend(a[1..], b);
    }
  }

  /** The body of a post of `items`: one line per item, in order, its time
      moved by `shift` (the user's offset plus the server clock correction)
      and its text escaped. */
  function Body(items: seq<TextEntry>, shift: int): seq<BodyLine>
  {
    seq(|items|, i requires 0 <= i < |items| => BodyLine(items[i].time + shift, Escaped(items[i].text)))
  }

  /** What a post leaves in the client: a reply with the server's clock sets
      the correction to the server's time less the local one; any reply or
      failure stamps the time of the post; an unparsable reply raises before
      either is set. */
  predicate PostEffect(outcome: PostOutcome, now: int, lastPost0: int, correction0: int,
                       lastPost: int, correction: int)
  {
    match outcome
    case Accepted(serverTime) => lastPost == now && correction == serverTime - now
    case RequestFailed => lastPost == now && correction == correction0
    case MalformedReply => lastPost == lastPost0 && correction == correction0
  }

  /** The batch a busy tick posts: the one in flight, or else every pending
      entry, marked as sent. */
  function Batch(sent: seq<TextEntry>, pending: seq<TextEntry>): seq<TextEntry>
  {
    if sent != [] then sent else Marked(pending, Sent)
  }

  class Client {
    /** Entries whose batch was delivered or given up on. */
    var confirmed: seq<TextEntry>
    /** The batch in flight. */
    var sent: seq<TextEntry>
    /** Entries handed over but not yet in a batch. */
    var pending: seq<TextEntry>
    /** The number of the last batch or heartbeat. */
    var seqNo: int
    /** When the batch in flight was first posted. */
    var retryStart: int
    /** The current backoff bound. */
    var retryDelay: int
    /** When the last post completed. */
    var lastPost: int
    /** The server's clock less the local one, from the last accepted post. */
    var correction: int
    var url: string
    /** The user's shift of every posted time. */
    var offset: int
    /** Failed posts of the batch in flight so far. */
    ghost var failures: nat

    ghost predicate Valid()
      reads this
    {
      && (forall i :: 0 <= i < |confirmed| ==> Settled(confirmed[i].status))
      && (forall i :: 0 <= i < |sent| ==> sent[i].status == Sent)
      && 0 <= retryDelay
      && (sent != [] ==> retryDelay == InitialRetryDelay * Pow2(failures))
    }

    constructor (now: int)
      ensures Valid()
      ensures confirmed == [] && sent == [] && pending == []
      ensures seqNo == 0 && retryStart == now && retryDelay == 0
      ensures lastPost == now - HeartbeatInterval && correction == 0
      ensures url == [] && offset == 0
    {
      confirmed := [];
      sent := [];
      pending := [];
      seqNo := 0;
      retryStart := now;
      retryDelay := 0;
      lastPost := now - HeartbeatInterval;
      correction := 0;
      url := [];
      offset := 0;
      failures := 0;
    }

    /** The text of the three queues, in order. */
    ghost function Text(): string
      reads this
    {
      Joined(confirmed) + Joined(sent) + Joined(pending)
    }

    /** Everything the client holds, oldest first; it spells `Text()`. */
    function Entries(): (r: seq<TextEntry>)
      reads this
      ensures Joined(r) == Text()
    {
      JoinedAppend(confirmed, sent);
      JoinedAppend(confirmed + sent, pending);
      confirmed + sent + pending
    }

    /** Hands entries over for delivery: they join the end of the queue. */
    method Send(items: seq<TextEntry>)
      requires Valid()
      modifies this`pending
      ensures Valid()
      ensures pending == old(pending) + items
      ensures Text() == old(Text()) + Joined(items)
    {
      JoinedAppend(pending, items);
      pending := pending + items;
    }

    /** The entries of a batch with every status set to `status`, as the
        loops over `_sent` leave them. */
    static method MarkAll(items: seq<TextEntry>, status: Status) returns (r: seq<TextEntry>)
      ensures r == Marked(items, status)
    {
      r := items;
      var i := 0;
      while i < |r|
        invariant 0 <= i <= |r| == |items|
        invariant forall j :: 0 <= j < i ==> r[j] == items[j].(status := status)
        invariant forall j :: i <= j < |r| ==> r[j] == items[j]
      {
        r := r[i := r[i].(status := status)];
        i := i + 1;
      }
    }

    /** Posts `items` under sequence number `seqNo`: builds the body line by
        line, then records what the reply leaves behind. */
    method Post(seqNo: int, items: seq<TextEntry>, now: int, outcome: PostOutcome)
      returns (req: Request, success: bool)
      modifies this`lastPost, this`correction
      ensures req == Request(url, seqNo, Body(items, offset + old(correction)))
      ensures success <==> outcome.Accepted?
      ensures PostEffect(outcome, now, old(lastPost), old(correction), lastPost, correction)
    {
      var body := [];
      var i := 0;
      while i < |items|
        invariant 0 <= i <= |items|
        invariant body == Body(items[..i], offset + correction)
      {
        body := body + [BodyLine(items[i].time + offset + correction, Escaped(items[i].text))];
        i := i + 1;
      }
      assert items[..i] == items;
      req := Request(url, seqNo, body);
      match outcome
      case Accepted(serverTime) =>
        correction := serverTime - now;
        lastPost := now;
        success := true;
      case RequestFailed =>
        lastPost := now;
        success := false;
      case MalformedReply =>
        success := false;
    }

    /** Moves the batch in flight, marked `status`, to the settled entries,
        and says how soon to tick again. */
    method Settle(status: Status) returns (r: TickResult)
      requires Valid() && Settled(status)
      modifies this`sent, this`confirmed
      ensures Valid()
      ensures confirmed == old(confirmed) + Marked(old(sent), status) && sent == []
      ensures r == Wait(if pending != [] then 0 else PollInterval)
      ensures Text() == old(Text())
    {
      var batch := MarkAll(sent, status);
      JoinedMarked(sent, status);
      JoinedAppend(confirmed, batch);
      confirmed := confirmed + batch;
      sent := [];
      r := Wait(if pending != [] then 0 else PollInterval);
    }

    /** Posts the batch in flight again. Accepted, it is settled as a
        success; refused after the retry window has closed, as a failure;
        refused within it, it stays in flight and the backoff doubles, the
        next tick coming after any wait up to the new bound. */
    method Retry(now: int, outcome: PostOutcome) returns (r: TickResult, posted: Request)
      requires Valid() && sent != []
      modifies this
      ensures Valid()
      ensures pending == old(pending) && seqNo == old(seqNo) && retryStart == old(retryStart)
      ensures url == old(url) && offset == old(offset)
      ensures posted == Request(url, seqNo, Body(old(sent), offset + old(correction)))
      ensures PostEffect(outcome, now, old(lastPost), old(correction), lastPost, correction)
      ensures Text() == old(Text())
      ensures outcome.Accepted? ==>
        && confirmed == old(confirmed) + Marked(old(sent), Success) && sent == []
        && r == Wait(if pending != [] then 0 else PollInterval)
      ensures outcome.RequestFailed? && now - retryStart >= RetryTimeout ==>
        && confirmed == old(confirmed) + Marked(old(sent), Failed) && sent == []
        && r == Wait(if pending != [] then 0 else PollInterval)
      ensures outcome.RequestFailed? && now - retryStart < RetryTimeout ==>
        && confirmed == old(confirmed) && sent == old(sent)
        && retryDelay == 2 * old(retryDelay) && failures == old(failures) + 1
        && r.Wait? && 0 <= r.ms <= retryDelay
      ensures outcome.MalformedReply? ==>
        r == Raised && confirmed == old(confirmed) && sent == old(sent)
      ensures !(outcome.RequestFailed? && now - retryStart < RetryTimeout) ==>
        retryDelay == old(retryDelay) && failures == old(failures)
    {
      var success;
      posted, success := Post(seqNo, sent, now, outcome);
      if outcome.MalformedReply? {
        r := Raised;
        return;
      }
      if success {
        r := Settle(Success);
      } else if now - retryStart >= RetryTimeout {
        r := Settle(Failed);
      } else {
        retryDelay := retryDelay * 2;
        failures := failures + 1;
        assert 0 <= 0 <= retryDelay;
        var w :| 0 <= w <= retryDelay;
        r := Wait(w);
      }
    }

    /** One round of background work. With a batch in flight, it only
        retries it. Otherwise every pending entry becomes a new batch, under
        the next sequence number, with a fresh retry window and backoff, and
        is posted. An idle client posts an empty heartbeat under the next
        sequence number once `HeartbeatInterval` has passed since the last
        post; the heartbeat joins no queue. No entry and no text is lost or
        reordered. */
    method Tick(now: int, outcome: PostOutcome) returns (r: TickResult, posted: Option<Request>)
      requires Valid()
      modifies this
      ensures Valid()
      ensures url == old(url) && offset == old(offset)
      ensures Text() == old(Text())
      ensures old(sent) != [] || old(pending) != [] ==>
        var batch := Batch(old(sent), old(pending));
        var delay0 := if old(sent) != [] then old(retryDelay) else InitialRetryDelay;
        var failures0 := if old(sent) != [] then old(failures) else 0;
        && pending == (if old(sent) != [] then old(pending) else [])
        && seqNo == old(seqNo) + (if old(sent) != [] then 0 else 1)
        && retryStart == (if old(sent) != [] then old(retryStart) else now)
        && posted == Some(Request(url, seqNo, Body(batch, offset + old(correction))))
        && PostEffect(outcome, now, old(lastPost), old(correction), lastPost, correction)
        && (outcome.Accepted? ==>
              confirmed == old(confirmed) + Marked(batch, Success) && sent == []
              && r == Wait(if pending != [] then 0 else PollInterval))
        && (outcome.RequestFailed? && now - retryStart >= RetryTimeout ==>
              confirmed == old(confirmed) + Marked(batch, Failed) && sent == []
              && r == Wait(if pending != [] then 0 else PollInterval))
        && (outcome.RequestFailed? && now - retryStart < RetryTimeout ==>
              confirmed == old(confirmed) && sent == batch
              && retryDelay == 2 * delay0 && failures == failures0 + 1
              && r.Wait? && 0 <= r.ms <= retryDelay)
        && (outcome.MalformedReply? ==>
              r == Raised && confirmed == old(confirmed) && sent == batch)
        && (!(outcome.RequestFailed? && now - retryStart < RetryTimeout) ==>
              retryDelay == delay0 && failures == failures0)
      ensures old(sent) == [] && old(pending) == [] ==>
        && confirmed == old(confirmed) && sent == [] && pending == []
        && retryStart == old(retryStart) && retryDelay == old(retryDelay)
        && failures == old(failures)
        && if now - old(lastPost) >= HeartbeatInterval then
             && seqNo == old(seqNo) + 1
             && posted == Some(Request(url, seqNo, [BodyLine(now + offset + old(correction), [])]))
             && PostEffect(outcome, now, old(lastPost), old(correction), lastPost, correction)
             && r == (if outcome.MalformedReply? then Raised else Wait(PollInterval))
           else
             && seqNo == old(seqNo) && posted == None
             && lastPost == old(lastPost) && correction == old(correction)
             && r == Wait(PollInterval)
    {
      if sent != [] {
        var req;
        r, req := Retry(now, outcome);
        posted := Some(req);
      } else if pending != [] {
        StartBatch(now);
        var req;
        r, req := Retry(now, outcome);
        posted := Some(req);
      } else {
        r, posted := Idle(now, outcome);
      }
    }

    /** Makes every pending entry the batch in flight, marked as sent, under
        the next sequence number, with the retry window opening now and the
        backoff at its initial bound. */
    method StartBatch(now: int)
      requires Valid() && sent == [] && pending != []
      modifies this`sent, this`pending, this`seqNo, this`retryStart, this`retryDelay, this`failures
      ensures Valid()
      ensures sent == Marked(old(pending), Sent) && pending == []
      ensures seqNo == old(seqNo) + 1 && retryStart == now && retryDelay == InitialRetryDelay
      ensures failures == 0
      ensures Text() == old(Text())
    {
      var batch := MarkAll(pending, Sent);
      JoinedMarked(pending, Sent);
      sent := batch;
      pending := [];
      seqNo := seqNo + 1;
      retryStart := now;
      retryDelay := InitialRetryDelay;
      failures := 0;
    }

    /** The tick of a client with nothing to deliver: an empty heartbeat
        under the next sequence number once `HeartbeatInterval` has passed
        since the last post, and otherwise nothing. */
    method Idle(now: int, outcome: PostOutcome) returns (r: TickResult, posted: Option<Request>)
      modifies this`seqNo, this`lastPost, this`correction
      ensures if now - old(lastPost) >= HeartbeatInterval then
          && seqNo == old(seqNo) + 1
          && posted == Some(Request(url, seqNo, [BodyLine(now + offset + old(correction), [])]))
          && PostEffect(outcome, now, old(lastPost), old(correction), lastPost, correction)
          && r == (if outcome.MalformedReply? then Raised else Wait(PollInterval))
        else
          && seqNo == old(seqNo) && posted == None
          && lastPost == old(lastPost) && correction == old(correction)
          && r == Wait(PollInterval)
    {
      if now - lastPost >= HeartbeatInterval {
        seqNo := seqNo + 1;
        assert Body([NewEntry(now, [])], offset + correction) == [BodyLine(now + offset + correction, [])];
        var req, success := Post(seqNo, [NewEntry(now, [])], now, outcome);
        posted := Some(req);
        if outcome.MalformedReply? {
          r := Raised;
          return;
        }
      } else {
        posted := None;
      }
      r := Wait(PollInterval);
    }
  }
}
