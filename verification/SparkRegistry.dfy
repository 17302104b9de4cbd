/** What the bounded registry remembers, over any number of markings: exactly the
    payments after whose last marking fewer than 1024 others were marked. */
module SparkRegistry {
  import L = Ledger
  import opened Spark

  /** The registry after these payments were marked, in this order. */
  function Remembered(marks: seq<Hash>): seq<Hash> {
    if marks == [] then [] else Marked(Remembered(marks[..|marks| - 1]), marks[|marks| - 1])
  }

  /** The payments marked after `h` was last marked. */
  function Since(marks: seq<Hash>, h: Hash): set<Hash> {
    if marks == [] || marks[|marks| - 1] == h then {} else {marks[|marks| - 1]} + Since(marks[..|marks| - 1], h)
  }

  function Members(s: seq<Hash>): set<Hash> { set h | h in s }

  /** Each entry is followed by just the payments marked since, and the registry is
      full of such payments for each one it forgot. */
  ghost predicate Faithful(marks: seq<Hash>, kept: seq<Hash>) {
    && L.NoDuplicates(kept) && |kept| <= MAX && (forall h | h in kept :: h in marks)
    && (forall i | 0 <= i < |kept| :: Since(marks, kept[i]) == Members(kept[i + 1..]))
    && (forall h | h in marks && h !in kept :: |kept| == MAX && Members(kept) <= Since(marks, h))
  }

  lemma MembersSize(s: seq<Hash>)
    requires L.NoDuplicates(s)
    ensures |Members(s)| == |s|
    decreases |s|
  {
    if s == [] {
      assert Members(s) == {};
    } else {
      assert s == [s[0]] + s[1..];
      assert L.NoDuplicates(s[1..]) && s[0] !in s[1..];
      MembersSize(s[1..]);
      assert Members(s) == {s[0]} + Members(s[1..]);
    }
  }

  /** Where an entry is once another is taken out, and what follows it. */
  lemma {:induction false} WithoutAt(s: seq<Hash>, h: Hash, i: nat) returns (j: nat)
    requires i < |Without(s, h)|
    ensures j < |s| && s[j] == Without(s, h)[i] && Members(Without(s, h)[i + 1..]) == Members(s[j + 1..]) - {h}
    ensures s[j] != h
    decreases |s|
  {
    var rest := Without(s[1..], h);
    if s[0] != h && i == 0 {
      WithoutExact(s[1..], h);
      assert Without(s, h)[1..] == rest;
      j := 0;
    } else {
      var k := if s[0] == h then i else i - 1;
      assert Without(s, h)[i + 1..] == rest[k + 1..];
      j := WithoutAt(s[1..], h, k);
      assert s[1..][j + 1..] == s[j + 2..];
      j := j + 1;
    }
  }

  lemma SinceNext(marks: seq<Hash>, g: Hash, h: Hash)
    ensures Since(marks + [g], h) == if g == h then {} else {g} + Since(marks, h)
  {
    assert (marks + [g])[..|marks|] == marks;
  }

  lemma MembersAppend(s: seq<Hash>, g: Hash)
    ensures Members(s + [g]) == Members(s) + {g}
  {
  }

  lemma MovedFollowed(marks: seq<Hash>, kept: seq<Hash>, g: Hash, i: nat)
    requires Faithful(marks, kept) && i <= |Without(kept, g)|
    ensures var moved := Without(kept, g) + [g];
            Since(marks + [g], moved[i]) == Members(moved[i + 1..])
  {
    var rest := Without(kept, g);
    var moved := rest + [g];
    SinceNext(marks, g, moved[i]);
    if i < |rest| {
      var j := WithoutAt(kept, g, i);
      assert moved[i + 1..] == rest[i + 1..] + [g];
      MembersAppend(rest[i + 1..], g);
      hide Without, Since, Members;
      assert Since(marks, kept[j]) == Members(kept[j + 1..]);
    } else {
      assert moved[i + 1..] == [];
    }
  }

  /** Marking one more payment keeps the registry faithful. */
  lemma MarkedFaithful(marks: seq<Hash>, kept: seq<Hash>, g: Hash)
    requires Faithful(marks, kept)
    ensures Faithful(marks + [g], Marked(kept, g))
  {
    MarkedExact(kept, g);
    WithoutExact(kept, g);
    WithoutShorter(kept, g);
    var rest := Without(kept, g);
    var moved := rest + [g];
    var cut := |moved| - |Marked(kept, g)|;
    assert Marked(kept, g) == moved[cut..];
    forall i | 0 <= i < |Marked(kept, g)|
      ensures Since(marks + [g], Marked(kept, g)[i]) == Members(Marked(kept, g)[i + 1..])
    {
      MovedFollowed(marks, kept, g, cut + i);
      assert moved[cut..][i + 1..] == moved[cut + i + 1..];
    }
    forall h | h in marks + [g] && h !in Marked(kept, g)
      ensures |Marked(kept, g)| == MAX && Members(Marked(kept, g)) <= Since(marks + [g], h)
    {
      Forgotten(marks, kept, g, h);
    }
  }

  lemma {:induction false} WithoutSize(s: seq<Hash>, h: Hash)
    requires L.NoDuplicates(s) && h in s
    ensures |Without(s, h)| == |s| - 1
    decreases |s|
  {
    assert s == [s[0]] + s[1..];
    if s[0] == h {
      assert h !in s[1..];
      WithoutShorter(s[1..], h);
    } else {
      assert L.NoDuplicates(s[1..]);
      WithoutSize(s[1..], h);
    }
  }

  /** Marking leaves a full registry full. */
  lemma StaysFull(kept: seq<Hash>, g: Hash)
    requires L.NoDuplicates(kept) && |kept| == MAX
    ensures |Marked(kept, g)| == MAX
    ensures g !in kept ==> Marked(kept, g) == kept[1..] + [g]
  {
    if g in kept {
      WithoutSize(kept, g);
    } else {
      WithoutShorter(kept, g);
    }
  }

  lemma Forgotten(marks: seq<Hash>, kept: seq<Hash>, g: Hash, h: Hash)
    requires Faithful(marks, kept) && h in marks + [g] && h !in Marked(kept, g)
    ensures |Marked(kept, g)| == MAX && Members(Marked(kept, g)) <= Since(marks + [g], h)
  {
    MarkedExact(kept, g);
    SinceNext(marks, g, h);
    hide Marked, L.NoDuplicates, Since;
    assert |kept| == MAX && g != h;
    StaysFull(kept, g);
    if h in kept {
      assert h == kept[0] && Marked(kept, g) == kept[1..] + [g];
      MembersAppend(kept[1..], g);
    } else {
      assert Members(Marked(kept, g)) <= Members(kept) + {g};
    }
  }

  lemma {:induction false} RememberedFaithful(marks: seq<Hash>)
    ensures Faithful(marks, Remembered(marks))
    decreases |marks|
  {
    if marks != [] {
      var n := |marks| - 1;
      RememberedFaithful(marks[..n]);
      MarkedFaithful(marks[..n], Remembered(marks[..n]), marks[n]);
      assert marks == marks[..n] + [marks[n]];
    }
  }

  /** The registry remembers exactly the payments after whose last marking fewer
      than 1024 others were marked. */
  lemma RememberedExact(marks: seq<Hash>, h: Hash)
    ensures h in Remembered(marks) <==> h in marks && |Since(marks, h)| < 1024
  {
    RememberedFaithful(marks);
    var kept := Remembered(marks);
    hide Remembered, Since, Members;
    if h in kept {
      var i :| 0 <= i < |kept| && kept[i] == h;
      MembersSize(kept[i + 1..]);
    } else if h in marks {
      MembersSize(kept);
      SubsetSmaller(Members(kept), Since(marks, h));
    }
  }

  lemma {:induction false} SubsetSmaller(a: set<Hash>, b: set<Hash>)
    requires a <= b
    ensures |a| <= |b|
  {
    assert b == a + (b - a);
  }
}
