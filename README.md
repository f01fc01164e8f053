# Live caption client core, in Dafny

This project models the core of `client.py`, a desktop client that streams
live-typed captions to an HTTP caption endpoint. It has four parts.

- **Staging and reconciliation** (`editing.dfy`, `caption_frame.dfy`).
  The caption window keeps the text of its input box as a queue of staged
  entries. Each entry is a `TextEntry` value: capture time, text and status.
  Whenever the box changes (`MyFrame.OnText`), the entries are walked
  against the new text. Entries that still match are kept with their
  capture times. The first entry that diverges is cut to its common prefix
  with the text, and that prefix keeps the old time. The rest of the text
  becomes one fresh entry, and later entries are dropped.
- **Commit selection** (`editing.dfy`, `caption_frame.dfy`). On every tick
  (`MyFrame.Tick`), the longest head of entries that have aged `delay` and
  fit before the caret is handed to the client. The same text is cut from
  the front of the box.
- **Delivery** (`delivery.dfy`). `Client` posts the pending entries as a
  numbered batch. It retries the batch with a randomised, doubling backoff
  until the server accepts it (status Success) or the five-second retry
  window closes (status Failed). It posts an empty heartbeat after five
  idle seconds, and it keeps the server's clock correction.
- **Display** (`coloring.dfy`). `_display` colours each entry by its status
  and merges neighbouring runs that have the same colours.

The model's terms are these.

- Times are integer milliseconds.
- The wall clock is a `now` parameter, read once per tick.
- The outcome of a post is an input, `PostOutcome`:
  - `Accepted(serverTime)`;
  - `RequestFailed`, covering a connection error, a timeout or an error
    status;
  - `MalformedReply`.
- The random backoff wait is any integer in `[0, retryDelay]`.
- `Client` and `Frame` are classes whose methods update their fields, as
  the source's objects do.
- Each loop of the source is a method proved against a specification
  function: `Reconcile` against `Reconciled`, `Collapse` against
  `Collapsed`, `MarkAll` against `Marked`, and `Post` against `Body`.
  `SelectCommit` states its property outright.

Two behaviours of the code are worth stating plainly, and the model keeps
both as the code has them.

- **Malformed reply.** A reply body that `strptime` cannot parse raises
  `ValueError` out of `tick` (client.py:116-118) instead of counting as a
  failed post: the `except` catches only request errors. The model has a
  tick that meets `MalformedReply` end in `Raised`. A batch that the tick
  had just started stays in flight, marked Sent, under its new sequence
  number. `_last_post` and `_correction` are left unchanged. In
  `MyFrame.Tick` the exception also skips the redraw and the rescheduling
  of the next tick.
- **Heartbeats.** A heartbeat takes a sequence number of its own:
  `_seq += 1` at client.py:102.

The caret is read when the tick runs (client.py:495), so it can move
without any change of text. Such a move is `Frame.OnText` with the box's
current text and the new caret; its contract says the staged entries are
then left as they are.

## Model

| member | source | states |
|---|---|---|
| TextEntries.JoinedMarked | client.py:98-99 | setting every entry's status never changes the text the entries spell |
| Editing.CommonPrefix | client.py:471 | the result is a prefix of both strings, and where both go on past it they differ at the next character, so it is the longest common prefix |
| Editing.KeptCountMaximal | client.py:465-469 | the kept entries spell a prefix of the new text, and adding the next entry would not |
| Editing.ReconciledKeptHead | client.py:465-483 | the reconciled entries are exactly the longest matching head of the old ones, followed by the split of the first diverging entry or by the fresh entry for text typed past them all |
| Editing.ReconciledJoined | client.py:486-490 | the reconciled entries always spell the input box exactly, so the sanity check can never fire |
| Editing.ReconciledShape | client.py:465-483 | entries before the first mismatch are kept unchanged, including their times; at most two entries follow, none empty and all Pending; a new entry not stamped `now` is a strictly shorter prefix of the diverging entry and keeps its time |
| Editing.SplitTailShape | client.py:470-482 | splitting a diverging entry makes at most two non-empty entries, and only the common prefix keeps the old time |
| Editing.ReconciledAppend | client.py:465-485 | when the new text extends what the entries spell, they all stay and exactly one new trailing entry holds the added text |
| Editing.ReconciledUnchanged | client.py:460-485 | reconciling with the text the entries already spell changes nothing |
| Editing.SplitDiverging | client.py:470-482 | the divergence branch builds the common-prefix entry with the old time, then one fresh entry for the rest of the input |
| Editing.Reconcile | client.py:460-490 | the loop with its early exit computes the reconciled entries, and they spell the new value |
| Editing.SelectCommit | client.py:495-500 | the taken entries are a head of the queue in order, all aged, their text no longer than the room before the caret, and the loop stops only at a young entry or one too long for the room left |
| Delivery.Escaped | client.py:111 | escaped text holds no newline and is never shorter; newline-free text is unchanged |
| Delivery.EscapedAppend | client.py:111 | escaping a concatenation escapes each part |
| Delivery.Client.constructor | client.py:38-58 | empty queues, sequence 0, backoff 0, the last post one heartbeat interval ago, no correction |
| Delivery.Client.Entries | client.py:63-67 | the entries spell the confirmed, sent and pending texts in that order |
| Delivery.Client.Send | client.py:60-61 | the items join the end of the pending queue and add their text at the end of the client's text |
| Delivery.Client.MarkAll | client.py:98-99 | the loop sets every entry's status and changes nothing else |
| Delivery.Client.Post | client.py:106-122 | the body has one line per item, in order, with time plus offset plus correction and the escaped text; acceptance sets the correction to server time minus local time; any completed post stamps the last-post time; a malformed reply changes neither |
| Delivery.Client.Settle | client.py:70-75 | the marked batch is appended to the settled entries, the batch is emptied, and the wait is 0 if entries are pending, else the poll interval; the text is unchanged |
| Delivery.Client.Retry | client.py:69-84 | acceptance settles the batch as Success; a refusal at or past the retry window settles it as Failed; a refusal within the window keeps the batch, doubles the backoff, counts one more failure and waits at most the new bound; a malformed reply raises; the backoff and the failure count change only on a refusal within the window; the pending queue and the text are unchanged |
| Delivery.Client.StartBatch | client.py:92-99 | all pending entries become the batch in order, marked Sent, under the next sequence number, with the retry window opening now, a 100 ms backoff and no failures counted |
| Delivery.Client.Idle | client.py:101-104 | after a full heartbeat interval, one empty-text post goes out under the next sequence number; otherwise nothing is posted; the wait is the poll interval unless the reply raises |
| Delivery.Client.Tick | client.py:86-104 | a batch in flight is only retried and the pending queue is untouched; otherwise the pending entries become a new batch (sequence +1) and are posted; a refusal within the retry window doubles the backoff and counts one failure, any other outcome leaves both as the batch's start or the previous tick left them; an idle client may post a heartbeat that joins no queue and leaves the backoff alone; the text is never lost or reordered, and while a batch is in flight the backoff is 100 ms times 2 to the number of its failed posts |
| Coloring.BackgroundDistinct | client.py:444 | every status has its own background colour |
| Coloring.LabelsText | client.py:445 | the coloured runs spell the entries' text |
| Coloring.Collapsed | client.py:446-453 | the collapse never has more runs than its input, and has none only when the input has none |
| Coloring.MergeText | client.py:447-453 | one collapse step adds the run's text at the end |
| Coloring.CollapsedLast | client.py:449-453 | the last collapsed run has the colours of the last input run |
| Coloring.CollapsedText | client.py:446-454 | collapsing keeps the displayed text, in order |
| Coloring.CollapsedNoRepeat | client.py:446-453 | after collapsing, no two neighbouring runs share both colours |
| Coloring.CollapsedFixpoint | client.py:446-453 | runs whose neighbours already differ are left as they are |
| Coloring.CollapsedIdempotent | client.py:446-453 | collapsing twice is collapsing once |
| Coloring.Collapse | client.py:446-453 | the loop computes the collapse |
| CaptionFrame.ReconciledStaged | client.py:460-490 | after reconciliation the entries spell the box, none is empty and all are Pending |
| CaptionFrame.CommitStaged | client.py:501-509 | cutting the committed head and its text keeps the entries spelling the box, and the caret stays within it |
| CaptionFrame.Frame.constructor | client.py:388-441 | a fresh client in its initial state (empty queues, sequence 0, backoff 0, the last post one heartbeat interval ago, so the first tick sends a heartbeat, no correction, empty url and offset), no staged entries, an empty box and a five-second delay |
| CaptionFrame.Frame.OnText | client.py:460-490 | the staged entries become the reconciliation of the old ones with the new box text; an unchanged text leaves them as they are |
| CaptionFrame.Frame.Commit | client.py:494-513 | the committed head, with its capture times, joins the end of the client's pending queue in order, its text is cut from the front of the box, the caret moves back by its length, and the client's text grows by exactly that text |
| CaptionFrame.Frame.Tick | client.py:492-515 | the commit step, then the client's tick; the client's text followed by the box reads the same before and after |
| CaptionFrame.Frame.Display | client.py:443-454 | the display is the collapse of the coloured entries; it spells the client's text with no two neighbouring runs of the same colours |

## Left out

- `server.py` is not part of this model. It is an HTTP echo server with no logic.
- The HTTP transport of `_post` is left out: `requests.post`, the 0.2 s
  `_post_timeout` and `raise_for_status`. Their combined effect is the
  `PostOutcome` input.
- Timestamp formatting (`isoformat()[:-3]`) and parsing (`strptime`) are
  left out. Times stay integer milliseconds, and a body line carries the
  shifted time as a number.
- The request URL is left as the pair of `url` and the sequence number.
  The decimal text of `&seq=N` is not built.
- Each tick reads the clock once. The source calls `utcnow()` again within
  a tick: `MyFrame.Tick` (client.py:494) and `Client.tick` (client.py:88)
  each read it, then again for the retry-window test (client.py:77), the retry start
  (client.py:96), the heartbeat's `TextEntry()` (client.py:103, stamped at
  client.py:30) and the reply handling (client.py:116, 120). The model uses one instant for all of
  them, so the correction is the server time less that instant.
- `random.uniform` returns a real number in seconds. The model waits any
  integer number of milliseconds in the same range. `MyFrame.Tick`'s
  `int(... * 1000)` conversion is therefore not modelled.
- The backoff values 0 and 0.1 s are the integers 0 and 100 ms.
- Entries are values, not shared objects. Setting statuses rewrites the
  batch. Aliasing cannot be observed, because an entry leaves the frame's
  queue when it is sent.
- The wx GUI is left out: painting and sizing of `ColoredStaticText`,
  `Wrap`, scrolling and layout (client.py:455-458), and the status bar
  (`OnStatus`, `post_callback`).
- The caret correction for two-character newlines (client.py:510-511) is
  platform behaviour and is left out. So is measuring the caret through
  `GetRange`: the caret is a count of characters.
- `OnURLChange`, `OnDelayChange` and `OnOffsetChange` parse text fields.
  They are left out. `url`, `delay` and `offset` are fields that can be set
  directly.
- Scheduling through `wx.CallLater` and `wx.CallAfter` (client.py:517-522)
  is left out. A tick returns its wait, and the caller decides when to tick
  again.
- The frame constructor's initial `self.Tick()` (client.py:441) is left out.
  A caller makes the first tick.
- `client_test` (client.py:550-578) is dead code and is left out. It calls
  methods that `Client` does not have.
- The debugging `print` calls and the "WTF" print of the sanity check are
  left out. The check's condition is proved instead, in `Editing.ReconciledJoined`.
- CaptionFrame.Frame.Tick: its contract does not repeat what the client's
  tick returns and does to the client's queues. `Delivery.Client.Tick`
  states that.
- CaptionFrame.Frame.Display: it is a separate call rather than the last
  step of `Tick`.
