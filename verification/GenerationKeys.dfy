/**
 * What a holder of one generation's key can read, by opening links; and the
 * query that finds the current generation.
 */
module GenerationKeys {
  import opened Wrappers
  import opened SortKeys
  import opened Groups
  import opened GroupInvariants

  // ----- deriving keys -----

  /** A link that the key of generation `held` opens holds the key of generation `found`. */
  ghost predicate Opens(links: map<nat, Link>, held: nat, found: nat) {
    exists n :: n in links && links[n].under == held && links[n].key == found
  }

  /** The keys somebody uncovers one after another, from a wrap ever stored for them. */
  ghost predicate Derivation(s: Group, u: UserId, path: seq<nat>) {
    && path != [] && (exists w :: w in s.wraps && w.user == u && w.generation == path[0])
    && (forall i :: 0 <= i < |path| - 1 ==> Opens(s.links, path[i], path[i + 1]))
  }

  ghost predicate CanDerive(s: Group, u: UserId, generation: nat) {
    exists path :: Derivation(s, u, path) && path[|path| - 1] == generation
  }

  lemma {:induction false} DerivationsDescend(s: Group, u: UserId, path: seq<nat>, i: nat)
    requires LinksOk(s.links) && Derivation(s, u, path) && i < |path|
    ensures path[i] + i == path[0]
  {
    if i > 0 {
      DerivationsDescend(s, u, path, i - 1);
      assert Opens(s.links, path[i - 1], path[i - 1 + 1]);
    }
  }

  /** Whatever the links, nobody derives a key newer than every wrap made for them. */
  lemma NothingAboveTheWraps(s: Group, u: UserId, newest: nat)
    requires LinksOk(s.links) && forall w :: w in s.wraps && w.user == u ==> w.generation <= newest
    ensures forall generation: nat :: CanDerive(s, u, generation) ==> generation <= newest
  {
    forall generation: nat | CanDerive(s, u, generation) ensures generation <= newest {
      var path :| Derivation(s, u, path) && path[|path| - 1] == generation;
      DerivationsDescend(s, u, path, |path| - 1);
    }
  }

  /** A holder of one generation's key recovers every earlier one, and nothing later. */
  lemma ChainIsWalkable(s: Group, u: UserId, generation: nat)
    requires Chained(s) && s.meta.Some?
    ensures CanDerive(s, u, generation) <==> exists w :: w in s.wraps && w.user == u && generation <= w.generation
  {
    if w :| w in s.wraps && w.user == u && generation <= w.generation {
      var path := seq(w.generation - generation + 1, i requires 0 <= i <= w.generation - generation => w.generation - i);
      forall i | 0 <= i < |path| - 1 ensures Opens(s.links, path[i], path[i + 1]) {
        assert path[i + 1] in s.links;
      }
      assert Derivation(s, u, path);
    }
    if CanDerive(s, u, generation) {
      var path :| Derivation(s, u, path) && path[|path| - 1] == generation;
      DerivationsDescend(s, u, path, |path| - 1);
    }
  }

  /** So a member reads everything up to the generation of their entry. */
  lemma MembersReadBack(s: Group, u: UserId, generation: nat)
    requires Consistent(s) && s.meta.Some? && u in s.members && generation <= s.members[u].generation
    ensures CanDerive(s, u, generation)
  {
    assert EntryOk(s, u);
    ChainIsWalkable(s, u, generation);
  }

  // ----- the newest link -----

  /** The GENKEY# sort keys of the links. */
  function LinkKeys(links: map<nat, Link>): set<string> { set n | n in links :: GenKeySortKey(n) }

  predicate IsLast(keys: set<string>, k: string) { k in keys && forall j :: j in keys ==> AtOrBefore(j, k) }

  lemma {:induction false} SomeKeyIsLast(keys: set<string>)
    requires keys != {}
    ensures exists k :: IsLast(keys, k)
  {
    var j :| j in keys;
    if keys == {j} {
      assert IsLast(keys, j);
    } else {
      SomeKeyIsLast(keys - {j});
      var k :| IsLast(keys - {j}, k);
      BeforeIsTotal(j, k);
      if Before(j, k) {
        assert IsLast(keys, k);
      } else {
        forall i | i in keys ensures AtOrBefore(i, j) {
          if i != j {
            assert i in keys - {j};
            if i != k { BeforeIsTransitive(i, k, j); }
          }
        }
        assert IsLast(keys, j);
      }
    }
  }

  lemma LastLinkKey(s: Group, k: string)
    requires ChainOk(s) && Cur(s) <= GENERATION_LIMIT
    ensures IsLast(LinkKeys(s.links), k) ==> Cur(s) > 0 && k == GenKeySortKey(Cur(s) - 1)
  {
    if IsLast(LinkKeys(s.links), k) {
      var n :| n in s.links && k == GenKeySortKey(n);
      assert GenKeySortKey(Cur(s) - 1) in LinkKeys(s.links);
      GenKeysKeepOrder(n, Cur(s) - 1);
      GenKeysKeepOrder(Cur(s) - 1, n);
      BeforeIsTotal(GenKeySortKey(n), GenKeySortKey(Cur(s) - 1));
    }
  }

  /**
   * GroupCurrentGeneration: a descending query of one item, and one past what
   * it finds. None is a sort key that does not parse.
   */
  method GroupCurrentGeneration(keys: set<string>) returns (current: Option<nat>)
    ensures forall s: Group :: ChainOk(s) && Cur(s) <= GENERATION_LIMIT && keys == LinkKeys(s.links) ==> current == Some(Cur(s))
  {
    if keys == {} {
      forall s: Group | ChainOk(s) && keys == LinkKeys(s.links) ensures Cur(s) == 0 {
        assert forall n :: n in s.links ==> GenKeySortKey(n) in LinkKeys(s.links);
        assert 0 !in s.links;
      }
      return Some(0);
    }
    SomeKeyIsLast(keys);
    var last :| last in keys && IsLast(keys, last);
    var n := ParseGenKeySortKey(last);
    forall s: Group | ChainOk(s) && Cur(s) <= GENERATION_LIMIT && keys == LinkKeys(s.links)
      ensures n == Some(Cur(s) - 1)
    {
      LastLinkKey(s, last);
      GenKeyRoundTrip(Cur(s) - 1);
    }
    return if n.Some? then Some(n.value + 1) else None;
  }
}
