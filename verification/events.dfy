/** The timeline record that every collector produces, and the stable sort
    by `offset` that orders the timeline (`data.sort(key=lambda x: x["offset"])`
    in main.py; Python's `list.sort` is stable). */
module Events {

  /** The `type` field of a timeline record. */
  datatype Kind = Beat | Caption | Word | Phone | Viseme

  /** The `data` field: a beat detector's numeric label, or text. */
  datatype Datum = Label(value: real) | Text(text: string)

  /** One timeline record: `data`, `offset` (milliseconds) and `type`. */
  datatype Event = Event(data: Datum, offset: int, kind: Kind)

  ghost predicate SortedByOffset(s: seq<Event>) {
    forall i, j :: 0 <= i < j < |s| ==> s[i].offset <= s[j].offset
  }

  /** The events of `s` whose offset is `k`, in the order they occur in `s`. */
  function WithOffset(s: seq<Event>, k: int): seq<Event> {
    if |s| == 0 then []
    else (if s[0].offset == k then [s[0]] else []) + WithOffset(s[1..], k)
  }

  /** The number of leading events of `s` whose offset is below `k`: the
      place where a sorted `s` takes a new event with offset `k` ahead of
      every event with an equal or larger offset. */
  function Before(k: int, s: seq<Event>): (j: nat)
    ensures j <= |s|
    ensures forall i :: 0 <= i < j ==> s[i].offset < k
    ensures j < |s| ==> s[j].offset >= k
  {
    if |s| == 0 || s[0].offset >= k then 0 else 1 + Before(k, s[1..])
  }

  /** Inserts `x` ahead of the first event whose offset is at least
      `x.offset`, after every event before it. */
  function Insert(x: Event, s: seq<Event>): (r: seq<Event>)
    ensures r == s[..Before(x.offset, s)] + [x] + s[Before(x.offset, s)..]
  {
    if |s| == 0 || x.offset <= s[0].offset then
      assert s[..0] == [] && s[0..] == s;
      [x] + s
    else
      SpliceCons(s, Before(x.offset, s[1..]), [x]);
      [s[0]] + Insert(x, s[1..])
  }

  /** Python's stable `list.sort(key=offset)`, written as an insertion sort:
      the result is in non-decreasing offset order and holds exactly the
      events it was given. */
  function SortByOffset(s: seq<Event>): (r: seq<Event>)
    ensures SortedByOffset(r)
    ensures |r| == |s|
    ensures multiset(r) == multiset(s)
  {
    if |s| == 0 then []
    else
      var t := SortByOffset(s[1..]);
      InsertAddsOne(s[0], t);
      InsertSorted(s[0], t);
      MultisetOfCons(s);
      Insert(s[0], t)
  }

  /** A block spliced in after the first event of `s` lands one place
      further along in `s` than in its tail. */
  lemma SpliceCons(s: seq<Event>, j: nat, mid: seq<Event>)
    requires j < |s|
    ensures [s[0]] + (s[1..][..j] + mid + s[1..][j..]) == s[..j + 1] + mid + s[j + 1..]
  {
    assert s[..j + 1] == [s[0]] + s[1..][..j];
    assert s[j + 1..] == s[1..][j..];
  }

  /** Inserting into a sorted sequence keeps it sorted. */
  lemma InsertSorted(x: Event, s: seq<Event>)
    requires SortedByOffset(s)
    ensures SortedByOffset(Insert(x, s))
  {
    SpliceSorted(s, Before(x.offset, s), x);
  }

  lemma InsertAddsOne(x: Event, t: seq<Event>)
    ensures |Insert(x, t)| == |t| + 1
    ensures multiset(Insert(x, t)) == multiset(t) + multiset{x}
  {
    var j := Before(x.offset, t);
    var p, q := t[..j], t[j..];
    assert t == p + q;
    assert multiset(t) == multiset(p) + multiset(q);
    assert multiset(p + [x] + q) == multiset(p) + multiset{x} + multiset(q);
  }

  lemma MultisetOfCons(s: seq<Event>)
    requires |s| > 0
    ensures multiset(s) == multiset(s[1..]) + multiset{s[0]}
  {
    assert s == [s[0]] + s[1..];
  }

  lemma SpliceSorted(s: seq<Event>, j: nat, x: Event)
    requires SortedByOffset(s) && j <= |s|
    requires forall i :: 0 <= i < j ==> s[i].offset <= x.offset
    requires j < |s| ==> x.offset <= s[j].offset
    ensures SortedByOffset(s[..j] + [x] + s[j..])
  {
    var r := s[..j] + [x] + s[j..];
    forall a, b | 0 <= a < b < |r| ensures r[a].offset <= r[b].offset {
      if b < j {
        assert r[a] == s[a] && r[b] == s[b];
      } else if b == j {
        assert r[a] == s[a];
      } else if a == j {
        assert r[b] == s[b - 1];
      } else if a < j {
        assert r[a] == s[a] && r[b] == s[b - 1];
      } else {
        assert r[a] == s[a - 1] && r[b] == s[b - 1];
      }
    }
  }

  lemma {:induction false} BeforeIs(k: int, s: seq<Event>, j: nat)
    requires j <= |s|
    requires forall i :: 0 <= i < j ==> s[i].offset < k
    requires j < |s| ==> s[j].offset >= k
    ensures Before(k, s) == j
    decreases j
  {
    if j > 0 {
      BeforeIs(k, s[1..], j - 1);
    }
  }

  lemma {:induction false} WithOffsetAppend(a: seq<Event>, b: seq<Event>, k: int)
    ensures WithOffset(a + b, k) == WithOffset(a, k) + WithOffset(b, k)
    decreases |a|
  {
    if |a| == 0 {
      assert a + b == b;
    } else {
      assert (a + b)[0] == a[0];
      assert (a + b)[1..] == a[1..] + b;
      WithOffsetAppend(a[1..], b, k);
      assert WithOffset(a + b, k) == (if a[0].offset == k then [a[0]] else []) + WithOffset(a[1..] + b, k);
    }
  }

  lemma {:induction false} WithOffsetMember(s: seq<Event>, k: int, e: Event)
    requires e in WithOffset(s, k)
    ensures e in s && e.offset == k
    decreases |s|
  {
    if s[0] != e || s[0].offset != k {
      WithOffsetMember(s[1..], k, e);
    }
  }

  lemma {:induction false} InsertWithOffset(x: Event, t: seq<Event>, k: int)
    ensures WithOffset(Insert(x, t), k) == (if x.offset == k then [x] else []) + WithOffset(t, k)
    decreases |t|
  {
    if |t| == 0 || x.offset <= t[0].offset {
      WithOffsetTail([x] + t, k);
      assert ([x] + t)[1..] == t;
    } else {
      var r := [t[0]] + Insert(x, t[1..]);
      InsertWithOffset(x, t[1..], k);
      WithOffsetTail(r, k);
      WithOffsetTail(t, k);
      assert r[1..] == Insert(x, t[1..]);
    }
  }

  /** Stability: for every offset, the events carrying it appear in the
      sorted timeline in the same order as in the input. */
  lemma {:induction false} SortIsStable(s: seq<Event>, k: int)
    ensures WithOffset(SortByOffset(s), k) == WithOffset(s, k)
    decreases |s|
  {
    if |s| > 0 {
      SortIsStable(s[1..], k);
      InsertWithOffset(s[0], SortByOffset(s[1..]), k);
    }
  }

  /** A sorted sequence is fixed by what it holds at each offset and in
      which order: any stable sort by offset, Python's Timsort included,
      returns exactly what SortByOffset returns. */
  lemma {:induction false} StableSortIsUnique(a: seq<Event>, b: seq<Event>)
    requires SortedByOffset(a) && SortedByOffset(b)
    requires forall k :: WithOffset(a, k) == WithOffset(b, k)
    ensures a == b
    decreases |a|
  {
    WithOffsetOfHead(a);
    WithOffsetOfHead(b);
    if |a| > 0 && |b| > 0 {
      HeadsAgree(a, b);
      forall k ensures WithOffset(a[1..], k) == WithOffset(b[1..], k) {
        TailsAgree(a, b, k);
      }
      SortedTail(a);
      SortedTail(b);
      StableSortIsUnique(a[1..], b[1..]);
      assert a == [a[0]] + a[1..] && b == [b[0]] + b[1..];
    }
  }

  /** Two sorted sequences with the same events at their first offsets
      start with the same event. */
  lemma HeadsAgree(a: seq<Event>, b: seq<Event>)
    requires SortedByOffset(a) && SortedByOffset(b) && |a| > 0 && |b| > 0
    requires WithOffset(a, a[0].offset) == WithOffset(b, a[0].offset)
    requires WithOffset(a, b[0].offset) == WithOffset(b, b[0].offset)
    ensures a[0] == b[0]
  {
    var m, n := a[0].offset, b[0].offset;
    WithOffsetTail(a, m);
    WithOffsetTail(b, n);
    assert WithOffset(a, m)[0] == a[0];
    assert WithOffset(b, n)[0] == b[0];
    WithOffsetMember(b, m, a[0]);
    WithOffsetMember(a, n, b[0]);
    FirstIsLeast(b, a[0]);
    FirstIsLeast(a, b[0]);
  }

  /** No event of a sorted sequence has an offset below its first one. */
  lemma FirstIsLeast(s: seq<Event>, e: Event)
    requires SortedByOffset(s) && e in s
    ensures s[0].offset <= e.offset
  {
    var i :| 0 <= i < |s| && s[i] == e;
    if i > 0 {
      assert s[0].offset <= s[i].offset;
    }
  }

  /** Equal first events leave equal groups behind them. */
  lemma TailsAgree(a: seq<Event>, b: seq<Event>, k: int)
    requires |a| > 0 && |b| > 0 && a[0] == b[0]
    requires WithOffset(a, k) == WithOffset(b, k)
    ensures WithOffset(a[1..], k) == WithOffset(b[1..], k)
  {
    WithOffsetTail(a, k);
    WithOffsetTail(b, k);
    if a[0].offset == k {
      assert WithOffset(a[1..], k) == WithOffset(a, k)[1..];
      assert WithOffset(b[1..], k) == WithOffset(b, k)[1..];
    }
  }

  lemma SortedTail(s: seq<Event>)
    requires SortedByOffset(s) && |s| > 0
    ensures SortedByOffset(s[1..])
  {
  }

  lemma WithOffsetOfHead(s: seq<Event>)
    ensures |s| > 0 ==> WithOffset(s, s[0].offset) != []
  {
  }

  lemma WithOffsetTail(s: seq<Event>, k: int)
    requires |s| > 0
    ensures s[0].offset == k ==> WithOffset(s, k) == [s[0]] + WithOffset(s[1..], k)
    ensures s[0].offset != k ==> WithOffset(s, k) == WithOffset(s[1..], k)
  {
  }

  /** Every PHONE event of `s` is immediately followed by `follower` of it. */
  ghost predicate PhonesFollowedBy(s: seq<Event>, follower: Event -> Event) {
    forall i :: 0 <= i < |s| && s[i].kind == Phone ==> i + 1 < |s| && s[i + 1] == follower(s[i])
  }

  /** The follower of an event shares its offset and is not a PHONE. */
  ghost predicate KeepsOffset(follower: Event -> Event) {
    forall e :: follower(e).offset == e.offset && follower(e).kind != Phone
  }

  lemma SplicePhonesFollowed(u: seq<Event>, j: nat, mid: seq<Event>, follower: Event -> Event)
    requires PhonesFollowedBy(u, follower) && PhonesFollowedBy(mid, follower)
    requires j <= |u|
    requires |mid| > 0 && mid[|mid| - 1].kind != Phone
    requires j == 0 || u[j - 1].kind != Phone
    ensures PhonesFollowedBy(u[..j] + mid + u[j..], follower)
  {
    var r := u[..j] + mid + u[j..];
    forall i | 0 <= i < |r| && r[i].kind == Phone ensures i + 1 < |r| && r[i + 1] == follower(r[i]) {
      if i < j {
        assert r[i] == u[i] && i + 1 < j;
        assert r[i + 1] == u[i + 1];
      } else if i < j + |mid| {
        assert r[i] == mid[i - j] && i - j + 1 < |mid|;
        assert r[i + 1] == mid[i - j + 1];
      } else {
        assert r[i] == u[i - |mid|];
        assert r[i + 1] == u[i - |mid| + 1];
      }
    }
  }

  /** In a sorted sequence the event just ahead of an insertion point is
      never a PHONE: its follower would share its offset and so sit ahead
      of the insertion point as well. */
  lemma NoPhoneAheadOfInsertion(u: seq<Event>, k: int, follower: Event -> Event)
    requires KeepsOffset(follower)
    requires SortedByOffset(u) && PhonesFollowedBy(u, follower)
    ensures Before(k, u) == 0 || u[Before(k, u) - 1].kind != Phone
  {
    var j := Before(k, u);
    if j > 0 && u[j - 1].kind == Phone {
      assert u[j] == follower(u[j - 1]);
      assert u[j].offset == u[j - 1].offset;
    }
  }

  lemma PhonesFollowedInSuffix(s: seq<Event>, follower: Event -> Event)
    requires |s| > 0 && PhonesFollowedBy(s, follower)
    ensures PhonesFollowedBy(s[1..], follower)
  {
    var rest := s[1..];
    forall i | 0 <= i < |rest| && rest[i].kind == Phone ensures i + 1 < |rest| && rest[i + 1] == follower(rest[i]) {
      assert s[i + 1] == rest[i];
    }
  }

  /** Inserting a non-PHONE event into a sorted sequence does not come
      between a PHONE and its follower, which share an offset. */
  lemma InsertKeepsPhonesFollowed(x: Event, t: seq<Event>, follower: Event -> Event)
    requires KeepsOffset(follower)
    requires SortedByOffset(t) && PhonesFollowedBy(t, follower)
    requires x.kind != Phone
    ensures PhonesFollowedBy(Insert(x, t), follower)
  {
    NoPhoneAheadOfInsertion(t, x.offset, follower);
    SplicePhonesFollowed(t, Before(x.offset, t), [x], follower);
  }

  /** Two events with one offset, inserted one after the other, end up
      side by side in the order of the later insertion first. */
  lemma {:induction false} InsertTwoSameOffset(x: Event, v: Event, u: seq<Event>)
    requires x.offset == v.offset
    ensures Insert(x, Insert(v, u))
         == u[..Before(v.offset, u)] + [x, v] + u[Before(v.offset, u)..]
    decreases |u|
  {
    if |u| == 0 || v.offset <= u[0].offset {
      assert u[..0] == [] && u[0..] == u;
    } else {
      var t := Insert(v, u[1..]);
      var w := [u[0]] + t;
      assert Insert(v, u) == w;
      assert w[0] == u[0] && w[1..] == t;
      assert Insert(x, w) == [u[0]] + Insert(x, t);
      InsertTwoSameOffset(x, v, u[1..]);
      SpliceCons(u, Before(v.offset, u[1..]), [x, v]);
    }
  }

  /** Inserting a PHONE right after its follower was inserted puts the two
      side by side. */
  lemma InsertPairKeepsPhonesFollowed(x: Event, u: seq<Event>, follower: Event -> Event)
    requires KeepsOffset(follower)
    requires SortedByOffset(u) && PhonesFollowedBy(u, follower)
    requires x.kind == Phone
    ensures PhonesFollowedBy(Insert(x, Insert(follower(x), u)), follower)
  {
    var v := follower(x);
    InsertTwoSameOffset(x, v, u);
    NoPhoneAheadOfInsertion(u, v.offset, follower);
    assert PhonesFollowedBy([x, v], follower);
    SplicePhonesFollowed(u, Before(v.offset, u), [x, v], follower);
  }

  /** Sorting never separates a PHONE from the event that followed it,
      since the two share one offset and the sort is stable. */
  lemma {:induction false} SortKeepsPhonesFollowed(s: seq<Event>, follower: Event -> Event)
    requires KeepsOffset(follower)
    requires PhonesFollowedBy(s, follower)
    ensures PhonesFollowedBy(SortByOffset(s), follower)
    decreases |s|
  {
    if |s| > 0 {
      PhonesFollowedInSuffix(s, follower);
      if s[0].kind != Phone {
        SortKeepsPhonesFollowed(s[1..], follower);
        InsertKeepsPhonesFollowed(s[0], SortByOffset(s[1..]), follower);
      } else {
        assert s[1] == follower(s[0]);
        PhonesFollowedInSuffix(s[1..], follower);
        SortKeepsPhonesFollowed(s[2..], follower);
        assert s[1..][1..] == s[2..];
        InsertPairKeepsPhonesFollowed(s[0], SortByOffset(s[2..]), follower);
      }
    }
  }
}
