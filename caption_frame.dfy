/** The caption window `MyFrame`: the text typed into the input box is
    staged as entries, aged entries before the caret are committed to the
    delivery client and cut from the box, and the display shows every entry
    coloured by its status. */
module CaptionFrame {
  import opened TextEntries
  import opened Editing
  import opened Delivery
  import opened Coloring

  /** How long typed text stays editable before it is committed. */
  const DefaultDelay := 5000

  /** The commit step takes staged entries `p`, box text `t` and caret `c`
      to `p'`, `t'` and `c'`, handing `moved` to the client: `moved` is a
      head of `p`, every entry of it has aged, its text fits before the
      caret and is cut from the front of the box, and the head stops only at
      an entry that is young or too long for the room left. */
  ghost predicate Committed(p: seq<TextEntry>, t: string, c: int, now: int, delay: int,
                            moved: seq<TextEntry>, p': seq<TextEntry>, t': string, c': int)
  {
    && moved + p' == p
    && (forall j :: 0 <= j < |moved| ==> Aged(moved[j], now, delay))
    && |Joined(moved)| <= c
    && (p' != [] ==> !Aged(p'[0], now, delay) || |p'[0].text| > c - |Joined(moved)|)
    && t == Joined(moved) + t'
    && c' == c - |Joined(moved)|
  }

  /** The staged entries spell the input box, none of them is empty or
      handed over yet, and the caret is within the box. */
  ghost predicate Staged(pending: seq<TextEntry>, input: string, caret: int)
  {
    && Joined(pending) == input
    && 0 <= caret <= |input|
    && (forall i :: 0 <= i < |pending| ==> pending[i].text != [] && pending[i].status == Pending)
  }

  /** Reconciling with a new box text keeps the entries staged. */
  lemma ReconciledStaged(p: seq<TextEntry>, value: string, caret: int, now: int)
    requires (forall i :: 0 <= i < |p| ==> p[i].text != [] && p[i].status == Pending)
    requires 0 <= caret <= |value|
    ensures Staged(Reconciled(p, value, now), value, caret)
  {
    var r := Reconciled(p, value, now);
    var k := KeptCount(p, value);
    ReconciledShape(p, value, now);
    ReconciledJoined(p, value, now);
    forall i | 0 <= i < |r|
      ensures r[i].text != [] && r[i].status == Pending
    {
      if i < k {
        assert r[i] == r[..k][i] == p[..k][i];
      } else {
        assert r[i] == r[k..][i - k];
      }
    }
  }

  /** Cutting a head chosen as the commit loop chooses it from staged
      entries, and its text from the front of the box, is a commit step and
      leaves them staged, the caret moved back by the length of that text;
      an empty head changes nothing. */
  lemma CommitStaged(p: seq<TextEntry>, t: string, c: int, now: int, delay: int,
                     moved: seq<TextEntry>, rest: seq<TextEntry>)
    requires Staged(p, t, c)
    requires moved + rest == p
    requires forall j :: 0 <= j < |moved| ==> Aged(moved[j], now, delay)
    requires |Joined(moved)| <= c
    requires rest != [] ==> !Aged(rest[0], now, delay) || |rest[0].text| > c - |Joined(moved)|
    ensures Committed(p, t, c, now, delay, moved, rest, t[|Joined(moved)|..], c - |Joined(moved)|)
    ensures Staged(rest, t[|Joined(moved)|..], c - |Joined(moved)|)
    ensures moved == [] ==> rest == p && t[|Joined(moved)|..] == t && |Joined(moved)| == 0
  {
    JoinedAppend(moved, rest);
    forall i | 0 <= i < |rest|
      ensures rest[i].text != [] && rest[i].status == Pending
    {
      assert rest[i] == p[|moved| + i];
    }
    if moved == [] {
      assert rest == [] + rest;
    }
  }

  class Frame {
    const client: Client
    /** The staged entries; they spell the input box. */
    var pending: seq<TextEntry>
    var delay: int
    /** The text of the input box. */
    var input: string
    /** The caret, as the number of characters before it. */
    var insertionPoint: nat

    ghost predicate Valid()
      reads this, client
    {
      client.Valid() && Staged(pending, input, insertionPoint)
    }

    constructor (now: int)
      ensures Valid() && fresh(client)
      ensures pending == [] && input == [] && insertionPoint == 0 && delay == DefaultDelay
      ensures client.confirmed == [] && client.sent == [] && client.pending == []
      ensures client.seqNo == 0 && client.retryStart == now && client.retryDelay == 0
      ensures client.lastPost == now - HeartbeatInterval && client.correction == 0
      ensures client.url == [] && client.offset == 0
    {
      client := new Client(now);
      pending := [];
      delay := DefaultDelay;
      input := [];
      insertionPoint := 0;
    }

    /** The input box now reads `value`, with the caret at `caret`: the
        staged entries are reconciled with it, so that they spell it again,
        keeping the entries that still match and their capture times. A
        caret moved without a change of text leaves the entries as they
        are. */
    method OnText(value: string, caret: nat, now: int)
      requires Valid() && caret <= |value|
      modifies this`pending, this`input, this`insertionPoint
      ensures Valid()
      ensures input == value && insertionPoint == caret
      ensures pending == Reconciled(old(pending), value, now)
      ensures value == old(input) ==> pending == old(pending)
    {
      var r := Reconcile(pending, value, now);
      ReconciledStaged(pending, value, caret, now);
      ReconciledUnchanged(pending, now);
      pending := r;
      input := value;
      insertionPoint := caret;
    }

    /** The commit step of the tick: the longest head of the staged
        entries that have aged `delay` and fit before the caret goes to the
        client, and its text is cut from the front of the input box, the
        caret moving back by as much. */
    method Commit(now: int) returns (ghost moved: seq<TextEntry>)
      requires Valid()
      modifies this`pending, this`input, this`insertionPoint, client`pending
      ensures Valid()
      ensures Committed(old(pending), old(input), old(insertionPoint), now, delay,
                        moved, pending, input, insertionPoint)
      ensures client.pending == old(client.pending) + moved
      ensures client.Text() == old(client.Text()) + Joined(moved)
    {
      var tosend, rest := SelectCommit(pending, now, delay, insertionPoint);
      moved := tosend;
      CommitStaged(pending, input, insertionPoint, now, delay, tosend, rest);
      if tosend != [] {
        client.Send(tosend);
        var offset := |Joined(tosend)|;
        pending := rest;
        input := input[offset..];
        insertionPoint := insertionPoint - offset;
      } else {
        ConcatEmpty(client.Text());
      }
    }

    /** The periodic tick: the commit step, then a tick of the client. No
        text is lost: what the client holds followed by the box reads as
        before. */
    method Tick(now: int, outcome: PostOutcome)
      returns (r: TickResult, posted: Option<Request>, ghost moved: seq<TextEntry>)
      requires Valid()
      modifies this`pending, this`input, this`insertionPoint, client
      ensures Valid()
      ensures Committed(old(pending), old(input), old(insertionPoint), now, delay,
                        moved, pending, input, insertionPoint)
      ensures client.Text() == old(client.Text()) + Joined(moved)
      ensures client.Text() + input == old(client.Text() + input)
    {
      ghost var text0, input0 := client.Text(), input;
      moved := Commit(now);
      ghost var pending1, input1, caret1 := pending, input, insertionPoint;
      r, posted := client.Tick(now, outcome);
      assert pending == pending1 && input == input1 && insertionPoint == caret1;
      assert input0 == Joined(moved) + input;
      ConcatAssoc(text0, Joined(moved), input);
    }

    /** What the display shows: the client's entries as runs coloured by
        status, neighbouring runs of one colour merged. It spells the
        client's text, and no two neighbouring runs share their colours. */
    method Display() returns (shown: seq<ColoredText>)
      requires Valid()
      ensures shown == Collapsed(Labels(client.Entries()))
      ensures LabelText(shown) == client.Text()
      ensures NoAdjacentRepeat(shown)
    {
      var entries := client.Entries();
      shown := Collapse(Labels(entries));
      CollapsedText(Labels(entries));
      LabelsText(entries);
      CollapsedNoRepeat(Labels(entries));
    }
  }
}
