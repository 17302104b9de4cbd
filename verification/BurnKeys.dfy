/** The canonical identity of a burn: its note ids, sorted and joined with `|`.
    Two lists of ids get one key exactly when they are permutations of each
    other, and the ids can be read back off the key. */
module BurnKeys {
  /** A note's id is the hex of its output key: never empty, never with a `|`. */
  type NoteId = s: string | 0 < |s| && '|' !in s witness "0"

  // --- Python's order on strings -------------------------------------------

  predicate AtMost(a: string, b: string)
    decreases |a|
  {
    if |a| == 0 then true
    else if |b| == 0 then false
    else a[0] < b[0] || (a[0] == b[0] && AtMost(a[1..], b[1..]))
  }

  /** The first string ends, or has the smaller character, where the two part. */
  predicate PartAt(a: string, b: string, n: nat) {
    && n <= |a| && n <= |b| && a[..n] == b[..n]
    && (n == |a| || (n < |b| && a[n] < b[n]))
  }

  /** It is the order of a dictionary. */
  lemma {:induction false} AtMostExact(a: string, b: string)
    ensures AtMost(a, b) <==> exists n: nat :: PartAt(a, b, n)
    decreases |a|
  {
    if |a| == 0 {
      assert PartAt(a, b, 0);
    } else if |b| > 0 && a[0] == b[0] {
      AtMostExact(a[1..], b[1..]);
      if n: nat :| PartAt(a[1..], b[1..], n) {
        assert a[..n + 1] == [a[0]] + a[1..][..n] && b[..n + 1] == [b[0]] + b[1..][..n];
        assert PartAt(a, b, n + 1);
      }
      if n: nat :| PartAt(a, b, n) {
        assert a[1..][..n - 1] == a[..n][1..] && b[1..][..n - 1] == b[..n][1..];
        assert PartAt(a[1..], b[1..], n - 1);
      }
    } else if |b| > 0 && a[0] < b[0] {
      assert PartAt(a, b, 0);
    } else {
      forall n: nat ensures !PartAt(a, b, n) {
        FirstPart(a, b, n);
      }
    }
  }

  lemma FirstPart(a: string, b: string, n: nat)
    ensures |a| > 0 && PartAt(a, b, n) ==> |b| > 0 && a[0] <= b[0]
  {
    if |a| > 0 && PartAt(a, b, n) {
      if n > 0 {
        assert a[..n][0] == b[..n][0];
      }
    }
  }

  lemma AtMostTotal(a: string, b: string)
    ensures AtMost(a, b) || AtMost(b, a)
    decreases |a|
  {
  }

  lemma {:induction false} AtMostAntisymmetric(a: string, b: string)
    requires AtMost(a, b) && AtMost(b, a)
    ensures a == b
    decreases |a|
  {
    if |a| > 0 {
      AtMostAntisymmetric(a[1..], b[1..]);
      assert a == [a[0]] + a[1..] && b == [b[0]] + b[1..];
    }
  }

  lemma AtMostTransitive(a: string, b: string, c: string)
    requires AtMost(a, b) && AtMost(b, c)
    ensures AtMost(a, c)
    decreases |a|
  {
  }

  // --- Sorting -------------------------------------------------------------

  predicate Sorted(ids: seq<NoteId>) {
    forall i, j | 0 <= i < j < |ids| :: AtMost(ids[i], ids[j])
  }

  function Insert(id: NoteId, ids: seq<NoteId>): (r: seq<NoteId>)
    requires Sorted(ids)
    ensures multiset(r) == multiset(ids) + multiset{id}
    decreases |ids|
  {
    if |ids| == 0 then [id]
    else if AtMost(id, ids[0]) then
      [id] + ids
    else
      assert ids == [ids[0]] + ids[1..];
      [ids[0]] + Insert(id, ids[1..])
  }

  lemma {:induction false} InsertSorted(id: NoteId, ids: seq<NoteId>)
    requires Sorted(ids)
    ensures Sorted(Insert(id, ids))
    decreases |ids|
  {
    if |ids| > 0 {
      if AtMost(id, ids[0]) {
        forall j | 0 <= j < |ids| ensures AtMost(id, ids[j]) {
          if j > 0 {
            AtMostTransitive(id, ids[0], ids[j]);
          }
        }
      } else {
        AtMostTotal(id, ids[0]);
        InsertSorted(id, ids[1..]);
        var rest := Insert(id, ids[1..]);
        forall j | 0 <= j < |rest| ensures AtMost(ids[0], rest[j]) {
          assert rest[j] in multiset(rest);
          if rest[j] != id {
            assert rest[j] in ids[1..];
          }
        }
      }
    }
  }

  /** Python's sorted(). */
  function Sort(ids: seq<NoteId>): (r: seq<NoteId>)
    ensures Sorted(r) && multiset(r) == multiset(ids)
    decreases |ids|
  {
    if |ids| == 0 then []
    else
      assert ids == [ids[0]] + ids[1..];
      InsertSorted(ids[0], Sort(ids[1..]));
      Insert(ids[0], Sort(ids[1..]))
  }

  /** A list has only one sorted arrangement. */
  lemma {:induction false} SortedUnique(a: seq<NoteId>, b: seq<NoteId>)
    requires Sorted(a) && Sorted(b) && multiset(a) == multiset(b)
    ensures a == b
    decreases |a|
  {
    assert |multiset(a)| == |a| && |multiset(b)| == |b|;
    if |a| > 0 {
      LeastFirst(a, b);
      LeastFirst(b, a);
      AtMostAntisymmetric(a[0], b[0]);
      assert a == [a[0]] + a[1..] && b == [b[0]] + b[1..];
      assert multiset(a[1..]) == multiset(a) - multiset{a[0]};
      assert multiset(b[1..]) == multiset(b) - multiset{b[0]};
      SortedUnique(a[1..], b[1..]);
    }
  }

  lemma LeastFirst(a: seq<NoteId>, b: seq<NoteId>)
    requires Sorted(a) && multiset(a) == multiset(b) && |a| > 0 && |b| > 0
    ensures AtMost(a[0], b[0])
  {
    assert b[0] in multiset(a);
    assert b[0] in a;
    var i :| 0 <= i < |a| && a[i] == b[0];
    AtMostTotal(a[0], a[0]);
  }

  // --- Joining and reading back --------------------------------------------

  function Join(ids: seq<NoteId>): string
    decreases |ids|
  {
    if |ids| == 0 then ""
    else if |ids| == 1 then ids[0]
    else ids[0] + "|" + Join(ids[1..])
  }

  /** The leading characters of a string that are not `|`. */
  function Head(s: string): (h: string)
    ensures |h| <= |s| && h == s[..|h|] && '|' !in h
    ensures |h| < |s| ==> s[|h|] == '|'
    decreases |s|
  {
    if |s| == 0 || s[0] == '|' then ""
    else [s[0]] + Head(s[1..])
  }

  function Split(s: string): seq<string>
    decreases |s|
  {
    var h := Head(s);
    if |s| == 0 then []
    else if |h| == |s| then [s]
    else [h] + Split(s[|h| + 1..])
  }

  lemma {:induction false} HeadOf(h: string, rest: string)
    requires '|' !in h && (|rest| == 0 || rest[0] == '|')
    ensures Head(h + rest) == h
    decreases |h|
  {
    if |h| > 0 {
      assert (h + rest)[1..] == h[1..] + rest;
      assert h[0] in h;
      HeadOf(h[1..], rest);
    } else {
      assert h + rest == rest;
    }
  }

  lemma {:induction false} SplitJoin(ids: seq<NoteId>)
    ensures Split(Join(ids)) == ids
    decreases |ids|
  {
    if |ids| == 1 {
      HeadOf(ids[0], "");
      assert ids[0] + "" == ids[0];
    } else if |ids| > 1 {
      var rest := "|" + Join(ids[1..]);
      assert Join(ids) == ids[0] + rest;
      HeadOf(ids[0], rest);
      assert Join(ids)[|ids[0]| + 1..] == Join(ids[1..]);
      SplitJoin(ids[1..]);
    }
  }

  // --- The key -------------------------------------------------------------

  function BurnKey(ids: seq<NoteId>): string {
    Join(Sort(ids))
  }

  /** Two lists share a key exactly when one is a permutation of the other. */
  lemma BurnKeyExact(a: seq<NoteId>, b: seq<NoteId>)
    ensures BurnKey(a) == BurnKey(b) <==> multiset(a) == multiset(b)
  {
    SplitJoin(Sort(a));
    SplitJoin(Sort(b));
    if multiset(a) == multiset(b) {
      SortedUnique(Sort(a), Sort(b));
    }
  }

  /** The ids a key was made from. */
  function KeyIds(key: string): set<string> {
    set id | id in Split(key)
  }

  lemma KeyIdsOf(ids: seq<NoteId>)
    ensures KeyIds(BurnKey(ids)) == set id | id in ids
  {
    SplitJoin(Sort(ids));
    forall id: string ensures id in Sort(ids) <==> id in ids {
      assert id in multiset(Sort(ids)) <==> id in multiset(ids);
    }
  }
}
