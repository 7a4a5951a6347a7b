/**
 * The translation history: a newest-first list of entries, capped at ten when
 * an entry is added and filtered by id when one is deleted. These are the
 * pure list updates that the session's handlers hand to `setHistory`.
 */
module History {

  /** At most this many entries survive an insertion. */
  const Capacity := 10

  /** One record of a translation attempt; `translated` may be a diagnostic. */
  datatype Entry = Entry(id: int, original: string, translated: string, style: string, timestamp: string)

  function Min(a: int, b: int): int {
    if a <= b then a else b
  }

  /** `[newItem, ...prev.slice(0, 9)]` */
  function Push(log: seq<Entry>, item: Entry): (r: seq<Entry>)
    ensures |r| == Min(Capacity, |log| + 1)
    ensures r == ([item] + log)[..|r|]
  {
    [item] + log[..Min(Capacity - 1, |log|)]
  }

  /** `prev.filter(item => item.id !== id)` */
  function Remove(log: seq<Entry>, id: int): (r: seq<Entry>)
    ensures |r| <= |log|
    ensures forall e :: e in r <==> e in log && e.id != id
  {
    if log == [] then []
    else (if log[0].id == id then [] else [log[0]]) + Remove(log[1..], id)
  }

  /** Adds `items` one after the other, oldest first. */
  function PushAll(log: seq<Entry>, items: seq<Entry>): seq<Entry>
    decreases |items|
  {
    if items == [] then log else PushAll(Push(log, items[0]), items[1..])
  }

  function Reversed(s: seq<Entry>): (r: seq<Entry>)
    ensures |r| == |s|
  {
    if s == [] then [] else Reversed(s[1..]) + [s[0]]
  }

  lemma {:induction false} ReversedAt(s: seq<Entry>, k: int)
    requires 0 <= k < |s|
    ensures Reversed(s)[k] == s[|s| - 1 - k]
  {
    if k < |s| - 1 {
      ReversedAt(s[1..], k);
    }
  }

  /** Taking a prefix of the tail first changes nothing once the whole is cut to size. */
  lemma TakeOfTake(r: seq<Entry>, x: seq<Entry>, n: nat)
    requires n <= Capacity
    ensures (r + x[..Min(n, |x|)])[..Min(n, |r| + Min(n, |x|))] == (r + x)[..Min(n, |r| + |x|)]
  {
  }

  /**
   * After any non-empty run of insertions the log is the newest entries first,
   * followed by what was there before, cut to `Capacity`.
   */
  lemma {:induction false} PushAllNewestFirst(log: seq<Entry>, items: seq<Entry>)
    requires items != []
    ensures PushAll(log, items) == (Reversed(items) + log)[..Min(Capacity, |items| + |log|)]
    decreases |items|
  {
    var x, rest := items[0], items[1..];
    assert Reversed(items) == Reversed(rest) + [x];
    if rest == [] {
      assert Reversed(items) == [x];
    } else {
      var pushed := Push(log, x);
      PushAllNewestFirst(pushed, rest);
      TakeOfTake(Reversed(rest), [x] + log, Capacity);
      assert Reversed(rest) + ([x] + log) == Reversed(items) + log;
    }
  }

  /**
   * Once at least `Capacity` entries have been added, the log holds exactly the
   * last `Capacity` of them, newest first, whatever it held before.
   */
  lemma KeepsLatest(log: seq<Entry>, items: seq<Entry>)
    requires |items| >= Capacity
    ensures |PushAll(log, items)| == Capacity
    ensures forall k :: 0 <= k < Capacity ==> PushAll(log, items)[k] == items[|items| - 1 - k]
  {
    PushAllNewestFirst(log, items);
    forall k | 0 <= k < Capacity
      ensures PushAll(log, items)[k] == items[|items| - 1 - k]
    {
      ReversedAt(items, k);
    }
  }

  /** Filtering distributes over concatenation, so relative order is kept. */
  lemma {:induction false} RemoveAppend(a: seq<Entry>, b: seq<Entry>, id: int)
    ensures Remove(a + b, id) == Remove(a, id) + Remove(b, id)
  {
    if a == [] {
      assert a + b == b;
    } else {
      assert (a + b)[0] == a[0] && (a + b)[1..] == a[1..] + b;
      RemoveAppend(a[1..], b, id);
    }
  }

  /** Deleting an id no entry has leaves the log as it was. */
  lemma {:induction false} RemoveAbsent(log: seq<Entry>, id: int)
    requires forall e :: e in log ==> e.id != id
    ensures Remove(log, id) == log
  {
    if log != [] {
      assert log[0] in log;
      assert forall e :: e in log[1..] ==> e in log;
      RemoveAbsent(log[1..], id);
    }
  }

  /** Deleting the same id twice is deleting it once. */
  lemma RemoveIdempotent(log: seq<Entry>, id: int)
    ensures Remove(Remove(log, id), id) == Remove(log, id)
  {
    RemoveAbsent(Remove(log, id), id);
  }

  /** Deletions by two ids can be done in either order. */
  lemma {:induction false} RemoveCommutes(log: seq<Entry>, a: int, b: int)
    ensures Remove(Remove(log, a), b) == Remove(Remove(log, b), a)
  {
    if log != [] {
      var h := [log[0]];
      assert log == h + log[1..];
      RemoveAppend(h, log[1..], a);
      RemoveAppend(h, log[1..], b);
      RemoveAppend(Remove(h, a), Remove(log[1..], a), b);
      RemoveAppend(Remove(h, b), Remove(log[1..], b), a);
      RemoveCommutes(log[1..], a, b);
    }
  }

  /** No two entries share an id. */
  predicate UniqueIds(log: seq<Entry>) {
    forall i, j :: 0 <= i < j < |log| ==> log[i].id != log[j].id
  }

  /** How many entries carry `id`. */
  function CountId(log: seq<Entry>, id: int): nat {
    if log == [] then 0 else (if log[0].id == id then 1 else 0) + CountId(log[1..], id)
  }

  /** Deleting removes every entry with the id, and nothing else. */
  lemma {:induction false} RemoveCount(log: seq<Entry>, id: int)
    ensures |Remove(log, id)| == |log| - CountId(log, id)
  {
    if log != [] {
      RemoveCount(log[1..], id);
    }
  }

  lemma {:induction false} UniqueCountAtMostOne(log: seq<Entry>, id: int)
    requires UniqueIds(log)
    ensures CountId(log, id) <= 1
  {
    if log != [] {
      assert UniqueIds(log[1..]) by {
        forall i, j | 0 <= i < j < |log| - 1 ensures log[1..][i].id != log[1..][j].id {
          assert log[1..][i] == log[i + 1] && log[1..][j] == log[j + 1];
        }
      }
      UniqueCountAtMostOne(log[1..], id);
      if log[0].id == id {
        CountZeroWhenAbsent(log[1..], id);
      }
    }
  }

  lemma {:induction false} CountZeroWhenAbsent(log: seq<Entry>, id: int)
    requires forall i :: 0 <= i < |log| ==> log[i].id != id
    ensures CountId(log, id) == 0
  {
    if log != [] {
      assert forall i :: 0 <= i < |log| - 1 ==> log[1..][i] == log[i + 1];
      CountZeroWhenAbsent(log[1..], id);
    }
  }

  /** When ids are unique, a deletion removes at most one entry. */
  lemma RemoveAtMostOne(log: seq<Entry>, id: int)
    requires UniqueIds(log)
    ensures |log| - 1 <= |Remove(log, id)|
  {
    RemoveCount(log, id);
    UniqueCountAtMostOne(log, id);
  }
}
