/** Typed fragments of caption text and the operations on sequences of them
    that every other module shares. Times are milliseconds. */
module TextEntries {

  /** Where an entry is in its delivery life: typed, in the batch being posted,
      or settled as delivered or given up on. */
  datatype Status = Pending | Sent | Success | Failed

  /** One fragment of typed text, with the time it was captured. */
  datatype TextEntry = TextEntry(time: int, text: string, status: Status)

  /** The entry a fresh `TextEntry(text)` makes: stamped now, status Pending. */
  function NewEntry(now: int, text: string): TextEntry
  {
    TextEntry(now, text, Pending)
  }

  /** A settled entry is one whose batch was delivered or given up on. */
  predicate Settled(s: Status)
  {
    s == Success || s == Failed
  }

  /** `t` starts with `s`: the test `item.text == text[:len(item.text)]`. */
  predicate StartsWith(t: string, s: string)
  {
    |s| <= |t| && t[..|s|] == s
  }

  /** The texts of the entries, concatenated in order. */
  function Joined(entries: seq<TextEntry>): string
  {
    if entries == [] then [] else entries[0].text + Joined(entries[1..])
  }

  lemma {:induction false} JoinedAppend(a: seq<TextEntry>, b: seq<TextEntry>)
    ensures Joined(a + b) == Joined(a) + Joined(b)
  {
    if a == [] {
      assert a + b == b;
    } else {
      assert (a + b)[1..] == a[1..] + b;
      JoinedAppend(a[1..], b);
    }
  }

  /** Joining one more entry appends exactly its text. */
  lemma JoinedStep(p: seq<TextEntry>, i: nat)
    requires i < |p|
    ensures Joined(p[..i + 1]) == Joined(p[..i]) + p[i].text
  {
    assert p[..i + 1] == p[..i] + [p[i]];
    JoinedAppend(p[..i], [p[i]]);
    assert [p[i]][1..] == [];
  }

  /** A non-empty head of the entries spells the first entry's text, then
      the rest of that head. */
  lemma JoinedHead(p: seq<TextEntry>, j: nat)
    requires 1 <= j <= |p|
    ensures Joined(p[..j]) == p[0].text + Joined(p[1..][..j - 1])
  {
    assert p[..j][1..] == p[1..][..j - 1];
  }

  /** The entries with every status replaced, as the loops that set
      `item.status` leave them. */
  function Marked(entries: seq<TextEntry>, status: Status): seq<TextEntry>
  {
    seq(|entries|, i requires 0 <= i < |entries| => entries[i].(status := status))
  }

  /** Changing statuses never changes the text the entries spell. */
  lemma {:induction false} JoinedMarked(entries: seq<TextEntry>, status: Status)
    ensures Joined(Marked(entries, status)) == Joined(entries)
  {
    if entries != [] {
      assert Marked(entries, status)[1..] == Marked(entries[1..], status);
      JoinedMarked(entries[1..], status);
    }
  }

  /** Whether `u + v` is a prefix of `t` splits into two prefix questions. */
  lemma PrefixConcat(u: string, v: string, t: string)
    ensures StartsWith(t, u + v) <==> StartsWith(t, u) && StartsWith(t[|u|..], v)
  {
    if StartsWith(t, u + v) {
      assert (u + v)[..|u|] == u;
      assert t[..|u|] == (u + v)[..|u|];
      assert t[|u|..][..|v|] == t[..|u| + |v|][|u|..];
    }
    if StartsWith(t, u) && StartsWith(t[|u|..], v) {
      assert t[..|u| + |v|] == t[..|u|] + t[|u|..][..|v|];
    }
  }

  // Facts about sequences of any element type, kept apart from the
  // definitions above so that proofs using them stay small.

  lemma ConcatAssoc<T>(a: seq<T>, b: seq<T>, c: seq<T>)
    ensures (a + b) + c == a + (b + c)
  {
  }

  lemma ConcatEmpty<T>(a: seq<T>)
    ensures a + [] == a
  {
  }

  lemma ConsConcat<T>(x: T, h: seq<T>, tl: seq<T>)
    ensures [x] + (h + tl) == ([x] + h) + tl
  {
  }

  lemma TakeCons<T>(p: seq<T>, n: nat)
    requires n < |p|
    ensures p[..n + 1] == [p[0]] + p[1..][..n]
  {
  }
}
