/** The name search of the pet list (`components/pets-list.tsx`): a pet is
    shown when its lower-cased name includes the lower-cased query. */
module PetsList {
  import opened Seqs
  import opened Text
  import opened Types

  /** Whether a pet's lower-cased name includes `loweredQuery`. */
  function NameMatches(loweredQuery: string): Pet -> bool {
    (p: Pet) => Contains(Lower(p.name), loweredQuery)
  }

  /** `filteredPets`: the pets whose names include the query, ignoring case,
      in their original order. */
  function FilterPets(pets: seq<Pet>, query: string): (r: seq<Pet>)
    ensures IsSubseq(r, pets)
    ensures forall i :: 0 <= i < |r| ==> Contains(Lower(r[i].name), Lower(query))
    ensures forall i :: 0 <= i < |pets| && Contains(Lower(pets[i].name), Lower(query)) ==> pets[i] in r
    ensures forall p: Pet :: multiset(r)[p] == if Contains(Lower(p.name), Lower(query)) then multiset(pets)[p] else 0
  {
    FilterIsSubseq(pets, NameMatches(Lower(query)));
    FilterCounts(pets, NameMatches(Lower(query)));
    Filter(pets, NameMatches(Lower(query)))
  }

  /** An empty query shows every pet, in order. */
  lemma EmptyQueryShowsAll(pets: seq<Pet>)
    ensures FilterPets(pets, "") == pets
  {
    forall i | 0 <= i < |pets|
      ensures NameMatches(Lower(""))(pets[i])
    {
      ContainsEmpty(Lower(pets[i].name));
    }
    FilterAll(pets, NameMatches(Lower("")));
  }

  /** The search ignores case: a query and its upper-cased form, or its
      lower-cased form, show the same pets. */
  lemma SearchIgnoresCase(pets: seq<Pet>, query: string)
    ensures FilterPets(pets, Upper(query)) == FilterPets(pets, query)
    ensures FilterPets(pets, Lower(query)) == FilterPets(pets, query)
  {
    LowerOfUpper(query);
    assert Lower(Lower(query)) == Lower(query);
  }

  /** Typing more of a query only narrows the list: the pets shown for a
      longer query are a subsequence of those shown for any of its prefixes. */
  lemma LongerQueryNarrows(pets: seq<Pet>, prefix: string, query: string)
    requires prefix <= query
    ensures IsSubseq(FilterPets(pets, query), FilterPets(pets, prefix))
  {
    forall p: Pet | NameMatches(Lower(query))(p)
      ensures NameMatches(Lower(prefix))(p)
    {
      ContainsPrefix(Lower(p.name), Lower(prefix), Lower(query));
    }
    FilterFilterStronger(pets, NameMatches(Lower(prefix)), NameMatches(Lower(query)));
    FilterIsSubseq(FilterPets(pets, prefix), NameMatches(Lower(query)));
  }
}
