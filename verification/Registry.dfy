/** The registry of live melt attempts: a reference count per payment hash. */
module Registry {
  import L = Ledger

  type Hash = L.Hash

  type Counts = map<Hash, nat>

  function Started(m: Counts, h: Hash): Counts {
    m[h := (if h in m then m[h] else 0) + 1]
  }

  function Ended(m: Counts, h: Hash): Counts {
    var tracked: int := if h in m then m[h] else 0;
    var remaining := tracked - 1;
    if remaining > 0 then m[h := remaining] else m - {h}
  }

  /** The attempts, each under an identity of its own, that pay into `h`. */
  function On(attempts: map<nat, Hash>, h: Hash): set<nat> {
    set t | t in attempts && attempts[t] == h
  }

  /** The registry says exactly how many attempts are live on every hash. */
  ghost predicate Agrees(m: Counts, attempts: map<nat, Hash>) {
    forall h :: AgreesAt(m, attempts, h)
  }

  predicate AgreesAt(m: Counts, attempts: map<nat, Hash>, h: Hash) {
    if h in m then m[h] > 0 && m[h] == |On(attempts, h)| else On(attempts, h) == {}
  }

  lemma StartAgrees(m: Counts, attempts: map<nat, Hash>, t: nat, h: Hash)
    requires Agrees(m, attempts) && t !in attempts
    ensures Agrees(Started(m, h), attempts[t := h])
  {
    var after := attempts[t := h];
    forall g ensures AgreesAt(Started(m, h), after, g) {
      assert AgreesAt(m, attempts, g);
      StartedOn(attempts, t, h, g);
      hide On;
    }
  }

  lemma StartedOn(attempts: map<nat, Hash>, t: nat, h: Hash, g: Hash)
    requires t !in attempts
    ensures On(attempts[t := h], g) == On(attempts, g) + (if g == h then {t} else {})
    ensures t !in On(attempts, g)
  {
  }

  lemma EndAgrees(m: Counts, attempts: map<nat, Hash>, t: nat)
    requires Agrees(m, attempts) && t in attempts
    ensures Agrees(Ended(m, attempts[t]), attempts - {t})
  {
    var h := attempts[t];
    var after := attempts - {t};
    forall g ensures AgreesAt(Ended(m, h), after, g) {
      assert AgreesAt(m, attempts, g);
      if g == h {
        assert t in On(attempts, h);
        assert On(after, h) == On(attempts, h) - {t};
        assert |On(after, h)| == 0 <==> On(after, h) == {};
      } else {
        assert On(after, g) == On(attempts, g);
      }
    }
  }
}
