/** The registry of evidence that a collection returns: pieces by identifier, later ones replacing earlier ones
    (src/agents/nodes/knowledge.py). */
module EvidenceRegistry {
  import opened Ordering
  import opened Validation

  function EvidenceIds(evidence: seq<Evidence>): set<string> {
    set e | e in evidence :: e.id
  }

  function Ids(pieces: set<Evidence>): set<string> {
    set e | e in pieces :: e.id
  }

  /** Later evidence replaces earlier evidence with the same identifier. */
  function Register(registry: map<string, Evidence>, evidence: seq<Evidence>): map<string, Evidence> {
    if evidence == [] then registry else
    var last := evidence[|evidence| - 1];
    Register(registry, evidence[..|evidence| - 1])[last.id := last]
  }

  /** `registry[key] for key in sorted(registry)`. */
  function Listing(registry: map<string, Evidence>): seq<Evidence> {
    var keys := SortedKeys(registry.Keys);
    seq(|keys|, i requires 0 <= i < |keys| => registry[keys[i]])
  }

  predicate Keyed(registry: map<string, Evidence>) {
    forall id :: id in registry ==> registry[id].id == id
  }

  /** The registry has grown by these pieces: nothing is lost, and what is there was found now or was there before. */
  ghost predicate Grown(before: map<string, Evidence>, after: map<string, Evidence>, found: set<Evidence>) {
    && after.Keys == before.Keys + Ids(found)
    && (Keyed(before) ==> Keyed(after))
    && forall id :: id in after ==> FromEither(before, after, found, id)
  }

  ghost predicate FromEither(before: map<string, Evidence>, after: map<string, Evidence>, found: set<Evidence>,
                             id: string)
    requires id in after
  {
    after[id] in found || (id !in Ids(found) && id in before && after[id] == before[id])
  }

  lemma GrownTwice(a: map<string, Evidence>, b: map<string, Evidence>, c: map<string, Evidence>, found: set<Evidence>,
                   more: set<Evidence>)
    requires Grown(a, b, found) && Grown(b, c, more)
    ensures Grown(a, c, found + more)
  {
    assert Ids(found + more) == Ids(found) + Ids(more);
    forall id | id in c ensures FromEither(a, c, found + more, id) {
      assert FromEither(b, c, more, id);
      if c[id] !in more {
        assert FromEither(a, b, found, id);
      }
    }
  }

  lemma {:induction false} RegisterGrows(registry: map<string, Evidence>, evidence: seq<Evidence>)
    ensures Grown(registry, Register(registry, evidence), Elements(evidence))
  {
    if evidence == [] {
      assert Ids(Elements(evidence)) == {};
    } else {
      var front, last := evidence[..|evidence| - 1], evidence[|evidence| - 1];
      var before := Register(registry, front);
      RegisterGrows(registry, front);
      OneMoreGrows(before, last);
      GrownTwice(registry, before, before[last.id := last], Elements(front), {last});
      assert Elements(evidence) == Elements(front) + {last};
    }
  }

  lemma OneMoreGrows(registry: map<string, Evidence>, e: Evidence)
    ensures Grown(registry, registry[e.id := e], {e})
  {
    assert Ids({e}) == {e.id};
  }

  /** What was known before: the last piece with each identifier. */
  lemma {:induction false} ExistingIs(existing: seq<Evidence>)
    ensures Keyed(EvidenceById(existing)) && EvidenceById(existing).Keys == EvidenceIds(existing)
    ensures forall id :: id in EvidenceById(existing) ==> EvidenceById(existing)[id] in existing
  {
    if existing != [] {
      var front, last := existing[..|existing| - 1], existing[|existing| - 1];
      ExistingIs(front);
      assert existing == front + [last];
      assert EvidenceIds(existing) == EvidenceIds(front) + {last.id};
    }
  }

  predicate InIdOrder(evidence: seq<Evidence>) {
    forall i, j :: 0 <= i < j < |evidence| ==> StrLess(evidence[i].id, evidence[j].id)
  }

  lemma ListingInOrder(registry: map<string, Evidence>)
    requires Keyed(registry)
    ensures InIdOrder(Listing(registry))
  {
    var keys, all := SortedKeys(registry.Keys), Listing(registry);
    assert forall i :: 0 <= i < |keys| ==> keys[i] in registry && all[i].id == keys[i];
  }

  lemma Lists(registry: map<string, Evidence>, e: Evidence)
    requires Keyed(registry)
    ensures e in Listing(registry) <==> e.id in registry && registry[e.id] == e
  {
    var keys, all := SortedKeys(registry.Keys), Listing(registry);
    assert forall i :: 0 <= i < |keys| ==> keys[i] in registry && all[i] == registry[keys[i]];
    if e.id in registry && registry[e.id] == e {
      var i :| 0 <= i < |keys| && keys[i] == e.id;
      assert all[i] == e;
    }
  }

  lemma ListingIs(registry: map<string, Evidence>)
    requires Keyed(registry)
    ensures InIdOrder(Listing(registry)) && EvidenceIds(Listing(registry)) == registry.Keys
    ensures forall e :: e in Listing(registry) <==> e.id in registry && registry[e.id] == e
  {
    ListingInOrder(registry);
    forall e ensures e in Listing(registry) <==> e.id in registry && registry[e.id] == e {
      Lists(registry, e);
    }
    forall id | id in registry ensures id in EvidenceIds(Listing(registry)) {
      assert registry[id] in Listing(registry);
    }
  }
}
