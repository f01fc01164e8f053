/** The editable window of the caption frame: reconciling the staged entries
    with a new snapshot of the input box (`MyFrame.OnText`), and choosing the
    aged head of them to commit (`MyFrame.Tick`). */
module Editing {
  import opened TextEntries

  /** The longest common prefix of two strings, as `os.path.commonprefix`
      gives it for a pair. */
  function CommonPrefix(a: string, b: string): (c: string)
    ensures StartsWith(a, c) && StartsWith(b, c)
    ensures |c| < |a| && |c| < |b| ==> a[|c|] != b[|c|]
  {
    if a == [] || b == [] || a[0] != b[0] then []
    else [a[0]] + CommonPrefix(a[1..], b[1..])
  }

  /** Cutting `b` anywhere past the length of `a` does not change their
      common prefix. */
  lemma {:induction false} CommonPrefixCut(a: string, b: string, m: nat)
    requires |a| <= m <= |b|
    ensures CommonPrefix(a, b[..m]) == CommonPrefix(a, b)
  {
    if a != [] {
      assert b[..m][0] == b[0];
      assert b[..m][1..] == b[1..][..m - 1];
      CommonPrefixCut(a[1..], b[1..], m - 1);
    }
  }

  /** How many head entries still spell the input: each in turn must be a
      prefix of what the entries before it left of `t`. */
  function KeptCount(p: seq<TextEntry>, t: string): (k: nat)
    ensures k <= |p|
  {
    if p == [] || !StartsWith(t, p[0].text) then 0
    else 1 + KeptCount(p[1..], t[|p[0].text|..])
  }

  /** The kept entries are the longest head of the staged entries whose
      joined text is a prefix of the input. */
  lemma {:induction false} KeptCountMaximal(p: seq<TextEntry>, t: string)
    ensures StartsWith(t, Joined(p[..KeptCount(p, t)]))
    ensures KeptCount(p, t) < |p| ==> !StartsWith(t, Joined(p[..KeptCount(p, t) + 1]))
  {
    if p == [] {
    } else if !StartsWith(t, p[0].text) {
      JoinedStep(p, 0);
      assert p[..0] == [];
    } else {
      var t' := t[|p[0].text|..];
      var k' := KeptCount(p[1..], t');
      KeptCountMaximal(p[1..], t');
      JoinedHead(p, k' + 1);
      PrefixConcat(p[0].text, Joined(p[1..][..k']), t);
      if k' < |p| - 1 {
        JoinedHead(p, k' + 2);
        PrefixConcat(p[0].text, Joined(p[1..][..k' + 1]), t);
      }
    }
  }

  /** What is left of the input after the first `k` staged entries. */
  function RestAfter(p: seq<TextEntry>, k: nat, t: string): string
    requires k <= |p|
  {
    var at := |Joined(p[..k])|;
    if at <= |t| then t[at..] else []
  }

  /** The text typed past the kept entries, as one fresh entry, if any. */
  function FreshTail(rest: string, now: int): seq<TextEntry>
  {
    if rest == [] then [] else [NewEntry(now, rest)]
  }

  /** What replaces the first entry that diverges from the input: its common
      prefix with the rest of the input, keeping its capture time, then the
      rest of the input as one fresh entry. */
  function SplitTail(item: TextEntry, rest: string, now: int): seq<TextEntry>
  {
    var common := CommonPrefix(item.text, rest);
    (if common == [] then [] else [TextEntry(item.time, common, Pending)])
      + FreshTail(rest[|common|..], now)
  }

  /** The staged entries after the input box reads `t`, walking the old ones
      against it: an entry whose text starts what is left of the input is
      kept as it is; the first that does not is split and the walk stops,
      dropping the entries after it. */
  function Reconciled(p: seq<TextEntry>, t: string, now: int): seq<TextEntry>
  {
    if p == [] then FreshTail(t, now)
    else if StartsWith(t, p[0].text) then [p[0]] + Reconciled(p[1..], t[|p[0].text|..], now)
    else SplitTail(p[0], t, now)
  }

  /** What follows the `k` kept entries: the fresh entry for the text typed
      past them all, or the split of the first entry that diverges. */
  function TailAfter(p: seq<TextEntry>, k: nat, t: string, now: int): seq<TextEntry>
    requires k <= |p|
  {
    if k == |p| then FreshTail(RestAfter(p, k, t), now) else SplitTail(p[k], RestAfter(p, k, t), now)
  }

  /** Past a matching first entry, the tail is the tail of the remaining
      entries against the remaining input. */
  lemma TailAfterCons(p: seq<TextEntry>, k: nat, t: string, now: int)
    requires 1 <= k <= |p| && StartsWith(t, p[0].text)
    ensures TailAfter(p, k, t, now) == TailAfter(p[1..], k - 1, t[|p[0].text|..], now)
  {
    JoinedHead(p, k);
    assert RestAfter(p, k, t) == RestAfter(p[1..], k - 1, t[|p[0].text|..]);
  }

  /** The walk keeps exactly the longest head of the entries that spells a
      prefix of the input (`KeptCount`), then either the fresh entry for the
      text typed past them all or the split of the first diverging entry. */
  lemma {:induction false} ReconciledKeptHead(p: seq<TextEntry>, t: string, now: int)
    ensures Reconciled(p, t, now) == p[..KeptCount(p, t)] + TailAfter(p, KeptCount(p, t), t, now)
  {
    if p == [] || !StartsWith(t, p[0].text) {
      assert p[..0] == [];
      assert RestAfter(p, 0, t) == t;
    } else {
      var t' := t[|p[0].text|..];
      ReconciledKeptHead(p[1..], t', now);
      KeptHeadCons(p, t, now);
    }
  }

  /** The step of `ReconciledKeptHead` past a matching first entry. */
  lemma KeptHeadCons(p: seq<TextEntry>, t: string, now: int)
    requires p != [] && StartsWith(t, p[0].text)
    requires var t' := t[|p[0].text|..];
      Reconciled(p[1..], t', now) == p[1..][..KeptCount(p[1..], t')] + TailAfter(p[1..], KeptCount(p[1..], t'), t', now)
    ensures Reconciled(p, t, now) == p[..KeptCount(p, t)] + TailAfter(p, KeptCount(p, t), t, now)
  {
    var t' := t[|p[0].text|..];
    var k' := KeptCount(p[1..], t');
    var head', tail' := p[1..][..k'], TailAfter(p[1..], k', t', now);
    assert Reconciled(p, t, now) == [p[0]] + (head' + tail') by {
      ReconciledStep(p, t, now);
    }
    TakeCons(p, k');
    ConsConcat(p[0], head', tail');
    TailAfterCons(p, k' + 1, t, now);
    assert KeptCount(p, t) == k' + 1;
  }

  lemma JoinedFreshTail(rest: string, now: int)
    ensures Joined(FreshTail(rest, now)) == rest
  {
    if rest != [] {
      assert FreshTail(rest, now)[1..] == [];
    }
  }

  /** The split of a diverging entry spells exactly the rest of the input. */
  lemma JoinedSplitTail(item: TextEntry, rest: string, now: int)
    ensures Joined(SplitTail(item, rest, now)) == rest
  {
    var common := CommonPrefix(item.text, rest);
    var head := if common == [] then [] else [TextEntry(item.time, common, Pending)];
    JoinedAppend(head, FreshTail(rest[|common|..], now));
    if common != [] {
      assert head[1..] == [];
    }
    JoinedFreshTail(rest[|common|..], now);
    assert common + rest[|common|..] == rest;
  }

  /** The staged entries always spell the input exactly: the condition the
      frame's sanity check prints about. */
  lemma {:induction false} ReconciledJoined(p: seq<TextEntry>, t: string, now: int)
    ensures Joined(Reconciled(p, t, now)) == t
  {
    if p == [] {
      JoinedFreshTail(t, now);
    } else if StartsWith(t, p[0].text) {
      var t' := t[|p[0].text|..];
      ReconciledJoined(p[1..], t', now);
      assert ([p[0]] + Reconciled(p[1..], t', now))[1..] == Reconciled(p[1..], t', now);
      assert t == p[0].text + t';
    } else {
      JoinedSplitTail(p[0], t, now);
    }
  }

  /** Entries made by a reconciliation: none empty, all Pending, and all
      but possibly the first stamped `now`. */
  predicate MadeEntries(s: seq<TextEntry>, now: int)
  {
    && (forall j :: 0 <= j < |s| ==> s[j].text != [] && s[j].status == Pending)
    && (forall j :: 1 <= j < |s| ==> s[j].time == now)
  }

  /** The split of a diverging entry: at most two new entries; the first
      keeps the old capture time only when it holds a strict prefix of the
      old text. */
  lemma SplitTailShape(item: TextEntry, rest: string, now: int)
    requires !StartsWith(rest, item.text)
    ensures var s := SplitTail(item, rest, now);
      && |s| <= 2 && MadeEntries(s, now)
      && (s != [] && s[0].time != now ==>
            s[0].time == item.time && StartsWith(item.text, s[0].text) && |s[0].text| < |item.text|)
  {
    var common := CommonPrefix(item.text, rest);
    assert common != item.text;
  }

  /** Entries before the first mismatch are kept unchanged, with their times;
      at most two entries follow them, none empty. When the diverging entry
      shares a prefix with the input, that prefix is a shorter entry with the
      old capture time; every other new entry is stamped `now`. */
  lemma ReconciledShape(p: seq<TextEntry>, t: string, now: int)
    ensures var k := KeptCount(p, t); var r := Reconciled(p, t, now);
      && k <= |r| <= k + 2
      && r[..k] == p[..k]
      && MadeEntries(r[k..], now)
      && (k < |r| && r[k].time != now ==>
            k < |p| && r[k].time == p[k].time && StartsWith(p[k].text, r[k].text) && |r[k].text| < |p[k].text|)
  {
    var k := KeptCount(p, t);
    KeptCountMaximal(p, t);
    ReconciledKeptHead(p, t, now);
    var rest := RestAfter(p, k, t);
    var tail := TailAfter(p, k, t, now);
    var r := Reconciled(p, t, now);
    assert r[k..] == tail;
    if k < |p| {
      assert rest == t[|Joined(p[..k])|..];
      JoinedStep(p, k);
      PrefixConcat(Joined(p[..k]), p[k].text, t);
      SplitTailShape(p[k], rest, now);
    }
  }

  /** Text typed after everything staged becomes exactly one new trailing
      entry, and the staged entries stay as they are. */
  lemma {:induction false} ReconciledAppend(p: seq<TextEntry>, t: string, now: int)
    requires StartsWith(t, Joined(p))
    ensures Reconciled(p, t, now) == p + FreshTail(t[|Joined(p)|..], now)
  {
    if p != [] {
      PrefixConcat(p[0].text, Joined(p[1..]), t);
      ReconciledAppend(p[1..], t[|p[0].text|..], now);
      assert p == [p[0]] + p[1..];
    }
  }

  /** Reconciling with the text the entries already spell changes nothing. */
  lemma ReconciledUnchanged(p: seq<TextEntry>, now: int)
    ensures Reconciled(p, Joined(p), now) == p
  {
    ReconciledAppend(p, Joined(p), now);
  }

  /** One step of the walk, by whether the first entry still matches. */
  lemma ReconciledStep(p: seq<TextEntry>, t: string, now: int)
    requires p != []
    ensures Reconciled(p, t, now) ==
      if StartsWith(t, p[0].text) then [p[0]] + Reconciled(p[1..], t[|p[0].text|..], now)
      else SplitTail(p[0], t, now)
  {
  }

  /** Where the walk stops at a diverging entry, with `piece` the slice of
      the input under it and `after` what follows, the split is the common
      prefix of the entry and the piece, keeping the entry's time, and the
      rest of the input as one fresh entry. */
  lemma SplitTailOfPiece(item: TextEntry, piece: string, after: string, now: int)
    requires |piece| == |item.text| || (after == [] && |piece| < |item.text|)
    requires item.text != piece
    ensures !StartsWith(piece + after, item.text)
    ensures var common := CommonPrefix(item.text, piece);
      SplitTail(item, piece + after, now) ==
        (if common == [] then [] else [TextEntry(item.time, common, Pending)])
        + FreshTail(piece[|common|..] + after, now)
  {
    var before := piece + after;
    if |piece| == |item.text| {
      assert before[..|piece|] == piece;
      CommonPrefixCut(item.text, before, |piece|);
    } else {
      assert before == piece;
    }
    var common := CommonPrefix(item.text, piece);
    DropConcat(piece, after, |common|);
  }

  /** The branch of the reconciliation loop that meets the first entry whose
      text differs from `piece`, the slice of the input under it, with
      `after` the input past that slice: the entry's common prefix with the
      piece, keeping its capture time, then the rest of the input as one
      fresh entry. */
  method SplitDiverging(item: TextEntry, piece: string, after: string, now: int)
    returns (tail: seq<TextEntry>)
    requires |piece| == |item.text| || (after == [] && |piece| < |item.text|)
    requires item.text != piece
    ensures tail == SplitTail(item, piece + after, now)
  {
    SplitTailOfPiece(item, piece, after, now);
    tail := [];
    var common := CommonPrefix(item.text, piece);
    if common != [] {
      tail := tail + [TextEntry(item.time, common, Pending)];
    }
    var text := piece[|common|..] + after;
    if text != [] {
      tail := tail + [NewEntry(now, text)];
    }
  }

  /** The reconciliation loop of `MyFrame.OnText`: walk the staged entries
      against the new input, keep those that match, split the first that
      does not and stop. */
  method Reconcile(pending: seq<TextEntry>, value: string, now: int) returns (r: seq<TextEntry>)
    ensures r == Reconciled(pending, value, now)
    ensures Joined(r) == value
  {
    var text := value;
    r := [];
    var i := 0;
    while i < |pending|
      invariant 0 <= i <= |pending|
      invariant r + Reconciled(pending[i..], text, now) == Reconciled(pending, value, now)
    {
      var item := pending[i];
      ghost var before := text;
      var n := |item.text|;
      var piece;
      if n <= |text| {
        piece := text[..n];
        text := text[n..];
      } else {
        piece := text;
        text := [];
      }
      assert piece + text == before;
      ReconciledStep(pending[i..], before, now);
      assert pending[i..][0] == item && pending[i..][1..] == pending[i + 1..];
      if item.text == piece {
        assert before[|item.text|..] == text;
        r := r + [item];
      } else {
        var tail := SplitDiverging(item, piece, text, now);
        r := r + tail;
        text := [];
        break;
      }
      i := i + 1;
    }
    if i == |pending| {
      assert pending[i..] == [];
    }
    if text != [] {
      r := r + [NewEntry(now, text)];
    }
    ReconciledJoined(pending, value, now);
  }

  /** Dropping a head of the first part of a concatenation drops it from
      the whole. */
  lemma DropConcat(a: string, b: string, m: nat)
    requires m <= |a|
    ensures a[m..] + b == (a + b)[m..]
  {
  }

  /** An entry has aged out of the editable window. */
  predicate Aged(e: TextEntry, now: int, delay: int)
  {
    now - e.time >= delay
  }

  /** The commit loop of `MyFrame.Tick`: take entries from the head while
      they have aged and still fit in the `allowed` characters before the
      caret. What it takes is a head of the staged entries, in order, all
      aged, no longer in all than `allowed`, and it stops only at an entry
      that is young or too long for what is left. */
  method SelectCommit(pending: seq<TextEntry>, now: int, delay: int, allowed: nat)
    returns (tosend: seq<TextEntry>, rest: seq<TextEntry>)
    ensures tosend + rest == pending
    ensures forall j :: 0 <= j < |tosend| ==> Aged(tosend[j], now, delay)
    ensures |Joined(tosend)| <= allowed
    ensures rest != [] ==>
      !Aged(rest[0], now, delay) || |rest[0].text| > allowed - |Joined(tosend)|
  {
    tosend := [];
    rest := pending;
    var left := allowed;
    while rest != [] && now - rest[0].time >= delay && |rest[0].text| <= left
      invariant tosend + rest == pending
      invariant forall j :: 0 <= j < |tosend| ==> Aged(tosend[j], now, delay)
      invariant 0 <= left == allowed - |Joined(tosend)|
      decreases |rest|
    {
      var item := rest[0];
      rest := rest[1..];
      JoinedAppend(tosend, [item]);
      assert [item][1..] == [];
      tosend := tosend + [item];
      left := left - |item.text|;
    }
  }
}
